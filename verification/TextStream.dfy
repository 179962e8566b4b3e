/**
  An input stream of text, read word by word, number by number or line by line. White space in front is skipped, a read
  that finds nothing fails, and what was printed with white space behind it reads back.
 */
module TextStream {
  const INT64_MAX := 0x7fff_ffff_ffff_ffff
  const INT64_MIN := -0x8000_0000_0000_0000
  const WORD := 0x1_0000_0000_0000_0000

  // ---- characters and numbers

  predicate IsSpace(c: char) { c == ' ' || c == '\t' || c == '\n' || c == '\r' || c as int == 11 || c as int == 12 }

  predicate IsDigit(c: char) { '0' <= c <= '9' }

  function DigitChar(d: nat): (c: char)
    requires d < 10
    ensures IsDigit(c) && c as int - '0' as int == d
  {
    ('0' as int + d) as char
  }

  function Digits(n: nat): (s: string)
    ensures |s| >= 1 && forall k :: 0 <= k < |s| ==> IsDigit(s[k])
  {
    if n < 10 then [DigitChar(n)] else Digits(n / 10) + [DigitChar(n % 10)]
  }

  function IntText(n: int): string { if n < 0 then "-" + Digits(-n) else Digits(n) }

  function ValueOf(s: string): nat
    requires forall k :: 0 <= k < |s| ==> IsDigit(s[k])
  {
    if s == "" then 0
    else
      assert IsDigit(s[|s| - 1]);
      10 * ValueOf(s[..|s| - 1]) + (s[|s| - 1] as int - '0' as int)
  }

  lemma {:induction false} ValueOfDigits(n: nat)
    ensures ValueOf(Digits(n)) == n
  {
    if n < 10 {
      assert Digits(n)[..0] == "";
    } else {
      var front := Digits(n / 10);
      assert Digits(n)[..|front|] == front;
      ValueOfDigits(n / 10);
    }
  }

  // ---- the input stream

  /** What is left to read, and whether every read so far succeeded. */
  datatype Stream = Stream(rest: string, ok: bool)

  function SkipSpace(t: string): (r: string)
    ensures r == "" || !IsSpace(r[0])
    ensures |r| <= |t|
  {
    if t != "" && IsSpace(t[0]) then SkipSpace(t[1..]) else t
  }

  /** The length of the word at the start of t. */
  function WordLength(t: string): (n: nat)
    ensures n <= |t|
    ensures n > 0 <==> t != "" && !IsSpace(t[0])
  {
    if t == "" || IsSpace(t[0]) then 0 else 1 + WordLength(t[1..])
  }

  function DigitLength(t: string): (n: nat)
    ensures n <= |t| && forall k :: 0 <= k < n ==> IsDigit(t[k])
  {
    if t == "" || !IsDigit(t[0]) then 0 else 1 + DigitLength(t[1..])
  }

  /** A word; a stream that has failed, or has nothing left, leaves the variable as it was. */
  function ReadWord(s: Stream, prior: string): (r: (Stream, string))
    ensures r.0.ok ==> s.ok && |r.0.rest| < |s.rest|
  {
    if !s.ok then (s, prior)
    else
      var t := SkipSpace(s.rest);
      if t == "" then (Stream("", false), prior)
      else (Stream(t[WordLength(t)..], true), t[..WordLength(t)])
  }

  /** An optional sign and digits; without digits the number read is 0 and the stream fails. */
  function ReadNumber(t: string): (Stream, int) {
    var signed := t != "" && (t[0] == '-' || t[0] == '+');
    var body := if signed then t[1..] else t;
    var n := DigitLength(body);
    if n == 0 then (Stream(body, false), 0)
    else
      var v: int := ValueOf(body[..n]);
      (Stream(body[n..], true), if signed && t[0] == '-' then -v else v)
  }

  /** A 64-bit number; out of range it is clamped and the stream fails. */
  function ReadInt64(s: Stream, prior: int): (Stream, int) {
    if !s.ok then (s, prior)
    else
      var t := SkipSpace(s.rest);
      if t == "" then (Stream("", false), prior)
      else
        var (s', v) := ReadNumber(t);
        if v > INT64_MAX then (s'.(ok := false), INT64_MAX)
        else if v < INT64_MIN then (s'.(ok := false), INT64_MIN)
        else (s', v)
  }

  /** An unsigned 64-bit count; a minus sign wraps around. */
  function ReadCount(s: Stream): (r: (Stream, nat))
    ensures r.1 < WORD
  {
    if !s.ok then (s, 0)
    else
      var t := SkipSpace(s.rest);
      if t == "" then (Stream("", false), 0)
      else
        var (s', v) := ReadNumber(t);
        if v >= WORD || v <= -WORD then (s'.(ok := false), WORD - 1)
        else (s', if v < 0 then v + WORD else v)
  }

  function LineLength(t: string): (n: nat)
    ensures n <= |t|
    ensures n < |t| ==> t[n] == '\n'
  {
    if t == "" || t[0] == '\n' then 0 else 1 + LineLength(t[1..])
  }

  /** The rest of the line, after any white space, newlines included. */
  function ReadLine(s: Stream): (Stream, string) {
    if !s.ok then (s, "")
    else
      var t := SkipSpace(s.rest);
      var n := LineLength(t);
      if t == "" then (Stream("", false), "")
      else (Stream(if n < |t| then t[n + 1..] else "", true), t[..n])
  }

  lemma StreamsShrink(s: Stream)
    ensures |SkipSpace(s.rest)| <= |s.rest|
    ensures forall prior :: |ReadWord(s, prior).0.rest| <= |s.rest|
    ensures forall prior :: |ReadInt64(s, prior).0.rest| <= |s.rest|
    ensures |ReadCount(s).0.rest| <= |s.rest|
    ensures |ReadLine(s).0.rest| <= |s.rest|
  {
  }

  // ---- what is read back

  predicate IsWord(w: string) { w != "" && forall k :: 0 <= k < |w| ==> !IsSpace(w[k]) }

  predicate AllSpace(s: string) { forall k :: 0 <= k < |s| ==> IsSpace(s[k]) }

  /** A path survives: it is not empty, holds no newline and does not start with white space. */
  predicate GoodPath(p: string) { p != "" && !IsSpace(p[0]) && forall k :: 0 <= k < |p| ==> p[k] != '\n' }

  predicate IsInt64(n: int) { INT64_MIN <= n <= INT64_MAX }

  /** Ends the word or number before it. */
  predicate Ends(tail: string) { tail == "" || IsSpace(tail[0]) }

  lemma {:induction false} SkipLead(lead: string, t: string)
    requires AllSpace(lead) && (t == "" || !IsSpace(t[0]))
    ensures SkipSpace(lead + t) == t
  {
    if lead == "" {
      assert lead + t == t;
    } else {
      assert (lead + t)[1..] == lead[1..] + t;
      SkipLead(lead[1..], t);
    }
  }

  lemma {:induction false} WordThere(w: string, tail: string)
    requires (forall k :: 0 <= k < |w| ==> !IsSpace(w[k])) && Ends(tail)
    ensures WordLength(w + tail) == |w|
  {
    if w == "" {
      assert w + tail == tail;
    } else {
      assert (w + tail)[1..] == w[1..] + tail;
      WordThere(w[1..], tail);
    }
  }

  lemma ReadsWord(lead: string, w: string, tail: string, prior: string)
    requires AllSpace(lead) && IsWord(w) && Ends(tail)
    ensures ReadWord(Stream(lead + (w + tail), true), prior) == (Stream(tail, true), w)
  {
    SkipLead(lead, w + tail);
    WordThere(w, tail);
    assert (w + tail)[|w|..] == tail && (w + tail)[..|w|] == w;
  }

  lemma {:induction false} DigitsThere(d: string, tail: string)
    requires (forall k :: 0 <= k < |d| ==> IsDigit(d[k])) && Ends(tail)
    ensures DigitLength(d + tail) == |d|
  {
    if d == "" {
      assert d + tail == tail;
    } else {
      assert (d + tail)[1..] == d[1..] + tail;
      DigitsThere(d[1..], tail);
    }
  }

  lemma ReadsUnsigned(n: nat, tail: string)
    requires Ends(tail)
    ensures ReadNumber(Digits(n) + tail) == (Stream(tail, true), n)
  {
    var d := Digits(n);
    DigitsThere(d, tail);
    ValueOfDigits(n);
    assert (d + tail)[0] == d[0];
    assert (d + tail)[|d|..] == tail && (d + tail)[..|d|] == d;
  }

  lemma ReadsNegative(n: int, tail: string)
    requires n < 0 && Ends(tail)
    ensures ReadNumber("-" + Digits(-n) + tail) == (Stream(tail, true), n)
  {
    hide Digits, DigitLength, ValueOf;
    var d := Digits(-n);
    var body := d + tail;
    DigitsThere(d, tail);
    ValueOfDigits(-n);
    assert body[|d|..] == tail && body[..|d|] == d;
    var t := "-" + d + tail;
    assert t[0] == '-' && t[1..] == body;
  }

  lemma ReadsNumber(n: int, tail: string)
    requires Ends(tail)
    ensures ReadNumber(IntText(n) + tail) == (Stream(tail, true), n)
    ensures !IsSpace(IntText(n)[0])
  {
    if n < 0 {
      ReadsNegative(n, tail);
    } else {
      ReadsUnsigned(n, tail);
      assert IsDigit(Digits(n)[0]);
    }
  }

  lemma ReadsInt64(lead: string, n: int, tail: string, prior: int)
    requires AllSpace(lead) && Ends(tail) && IsInt64(n)
    ensures ReadInt64(Stream(lead + (IntText(n) + tail), true), prior) == (Stream(tail, true), n)
  {
    ReadsNumber(n, tail);
    SkipLead(lead, IntText(n) + tail);
  }

  lemma ReadsCount(lead: string, n: nat, tail: string)
    requires AllSpace(lead) && Ends(tail) && n < WORD
    ensures ReadCount(Stream(lead + (IntText(n) + tail), true)) == (Stream(tail, true), n)
  {
    ReadsNumber(n, tail);
    SkipLead(lead, IntText(n) + tail);
  }

  lemma {:induction false} LineThere(p: string, tail: string)
    requires forall k :: 0 <= k < |p| ==> p[k] != '\n'
    ensures LineLength(p + ("\n" + tail)) == |p|
  {
    if p == "" {
      assert p + ("\n" + tail) == "\n" + tail;
    } else {
      assert (p + ("\n" + tail))[1..] == p[1..] + ("\n" + tail);
      LineThere(p[1..], tail);
    }
  }

  lemma ReadsLine(lead: string, p: string, tail: string)
    requires AllSpace(lead) && GoodPath(p)
    ensures ReadLine(Stream(lead + (p + ("\n" + tail)), true)) == (Stream(tail, true), p)
  {
    hide SkipSpace, LineLength;
    var t := p + ("\n" + tail);
    assert t != "" && t[0] == p[0];
    SkipLead(lead, t);
    LineThere(p, tail);
    assert t[|p|..] == "\n" + tail;
    assert t[|p| + 1..] == tail && t[..|p|] == p;
  }
}
