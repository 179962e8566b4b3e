/** Array literals as Postgres has them: printing them, and reading back what was printed, by us or by the database. */
module PgArray {

  function Special(c: char): bool { c == '"' || c == '\\' }

  function EscapeOne(c: char): string { if Special(c) then ['\\', c] else [c] }

  /** Quotes and backslashes get a backslash in front. */
  function Escape(s: string): string {
    if s == "" then "" else EscapeOne(s[0]) + Escape(s[1..])
  }

  function Item(s: string, emptyIsNull: bool): string {
    if emptyIsNull && s == "" then "NULL" else "\"" + Escape(s) + "\""
  }

  function Body(items: seq<string>, emptyIsNull: bool): string {
    if items == [] then ""
    else if |items| == 1 then Item(items[0], emptyIsNull)
    else Item(items[0], emptyIsNull) + "," + Body(items[1..], emptyIsNull)
  }

  function Print(items: seq<string>, emptyIsNull: bool): string {
    "{" + Body(items, emptyIsNull) + "}"
  }

  // ---- the reader, one character (or escaped pair) at a time

  datatype Reader = Reader(out: seq<string>, cur: string, quoted: bool, inItem: bool)

  const START := Reader([], "", false, false)

  /** How many characters the reader takes at once: two for a backslash within quotes that has something behind it. */
  function Taken(text: string, r: Reader): (n: nat)
    requires text != ""
    ensures 1 <= n <= |text|
  {
    if r.quoted && text[0] == '\\' && |text| >= 2 then 2 else 1
  }

  function Read(text: string, r: Reader): Reader
    requires text != ""
  {
    if Taken(text, r) == 2 then r.(cur := r.cur + [text[1]]) else ReadOne(text[0], r)
  }

  function ReadOne(c: char, r: Reader): Reader {
    if r.quoted then
      if c == '"' then r.(quoted := false) else r.(cur := r.cur + [c])
    else if c == '"' then r.(quoted := true, inItem := true)
    else if c == ',' then Reader(r.out + [r.cur], "", false, false)
    else r.(cur := r.cur + [c], inItem := true)
  }

  function Scan(text: string, r: Reader): Reader
    decreases |text|
  {
    if text == "" then r else Scan(text[Taken(text, r)..], Read(text, r))
  }

  /** What the text of an array literal denotes. */
  function Parse(lit: string): seq<string> {
    if |lit| < 2 then []
    else
      var r := Scan(lit[1..|lit| - 1], START);
      if r.inItem || r.cur != "" || |lit| > 2 then r.out + [r.cur] else r.out
  }

  // ---- reading back what was printed

  lemma ScanOne(c: char, rest: string, r: Reader)
    requires !r.quoted || c != '\\'
    ensures Scan([c] + rest, r) == Scan(rest, ReadOne(c, r))
  {
    assert ([c] + rest)[1..] == rest;
  }

  lemma ScanPair(c: char, rest: string, r: Reader)
    requires r.quoted
    ensures Scan(['\\', c] + rest, r) == Scan(rest, r.(cur := r.cur + [c]))
  {
    assert (['\\', c] + rest)[2..] == rest;
  }

  lemma EscapedHead(s: string, tail: string)
    requires s != ""
    ensures Escape(s) + tail == EscapeOne(s[0]) + (Escape(s[1..]) + tail)
  {
  }

  /** Within quotes, text read up to rest has added s to the item being read. */
  ghost predicate Reads(text: string, out: seq<string>, cur: string, rest: string, s: string) {
    Scan(text, Reader(out, cur, true, true)) == Scan(rest, Reader(out, cur + s, true, true))
  }

  lemma ReadsMore(text: string, out: seq<string>, cur: string, c: char, tail: string, rest: string, s: string)
    requires s != "" && c == s[0] && text == EscapeOne(c) + tail
    requires Reads(tail, out, cur + [c], rest, s[1..])
    ensures Reads(text, out, cur, rest, s)
  {
    ScanFirst(c, tail, out, cur);
    assert cur + [c] + s[1..] == cur + s;
  }

  lemma {:induction false} ScanEscaped(s: string, rest: string, out: seq<string>, cur: string)
    ensures Reads(Escape(s) + rest, out, cur, rest, s)
    decreases |s|
  {
    if s == "" {
      assert Escape(s) + rest == rest && cur + s == cur;
    } else {
      EscapedHead(s, rest);
      ScanEscaped(s[1..], rest, out, cur + [s[0]]);
      ReadsMore(Escape(s) + rest, out, cur, s[0], Escape(s[1..]) + rest, rest, s);
    }
  }

  /** A character, escaped where it has to be, reads back as itself. */
  lemma ScanFirst(c: char, tail: string, out: seq<string>, cur: string)
    ensures Scan(EscapeOne(c) + tail, Reader(out, cur, true, true)) ==
            Scan(tail, Reader(out, cur + [c], true, true))
  {
    if Special(c) {
      ScanPair(c, tail, Reader(out, cur, true, true));
    } else {
      ScanOne(c, tail, Reader(out, cur, true, true));
    }
  }

  /** How an item reads back: NULL comes back as the word. */
  function Shown(s: string, emptyIsNull: bool): string { if emptyIsNull && s == "" then "NULL" else s }

  function AllShown(items: seq<string>, emptyIsNull: bool): (v: seq<string>)
    ensures |v| == |items| && forall k :: 0 <= k < |v| ==> v[k] == Shown(items[k], emptyIsNull)
  {
    seq(|items|, k requires 0 <= k < |items| => Shown(items[k], emptyIsNull))
  }

  lemma {:induction false} ScanWord(word: string, rest: string, out: seq<string>, cur: string, inItem: bool)
    requires word != "" && '"' !in word && ',' !in word
    ensures Scan(word + rest, Reader(out, cur, false, inItem)) == Scan(rest, Reader(out, cur + word, false, true))
    decreases |word|
  {
    assert word + rest == [word[0]] + (word[1..] + rest);
    ScanOne(word[0], word[1..] + rest, Reader(out, cur, false, inItem));
    if |word| == 1 {
      assert word[1..] + rest == rest && cur + [word[0]] == cur + word;
    } else {
      ScanWord(word[1..], rest, out, cur + [word[0]], true);
      assert cur + [word[0]] + word[1..] == cur + word;
    }
  }

  lemma ScanItem(s: string, emptyIsNull: bool, rest: string, out: seq<string>)
    ensures Scan(Item(s, emptyIsNull) + rest, Reader(out, "", false, false)) ==
              Scan(rest, Reader(out, Shown(s, emptyIsNull), false, true))
  {
    if emptyIsNull && s == "" {
      ScanWord("NULL", rest, out, "", false);
      assert "" + "NULL" == "NULL";
    } else {
      var inner := Escape(s) + (['"'] + rest);
      assert Item(s, emptyIsNull) + rest == ['"'] + inner;
      ScanOne('"', inner, Reader(out, "", false, false));
      ScanEscaped(s, ['"'] + rest, out, "");
      assert "" + s == s;
      ScanOne('"', rest, Reader(out, s, true, true));
    }
  }

  lemma BodyHead(items: seq<string>, emptyIsNull: bool)
    requires |items| > 1
    ensures Body(items, emptyIsNull) == Item(items[0], emptyIsNull) + ([','] + Body(items[1..], emptyIsNull))
  {
    Assoc(Item(items[0], emptyIsNull), ",", Body(items[1..], emptyIsNull));
  }

  lemma Assoc(a: string, b: string, c: string)
    ensures (a + b) + c == a + (b + c)
  {
  }

  lemma {:induction false} ScanBody(items: seq<string>, emptyIsNull: bool, out: seq<string>)
    requires items != []
    ensures var shown := AllShown(items, emptyIsNull);
            Scan(Body(items, emptyIsNull), Reader(out, "", false, false)) ==
            Reader(out + shown[..|items| - 1], shown[|items| - 1], false, true)
    decreases |items|
  {
    var shown := AllShown(items, emptyIsNull);
    if |items| == 1 {
      ScanItem(items[0], emptyIsNull, "", out);
      assert Item(items[0], emptyIsNull) + "" == Item(items[0], emptyIsNull);
      assert out + shown[..0] == out;
    } else {
      var rest := Body(items[1..], emptyIsNull);
      BodyHead(items, emptyIsNull);
      ScanItem(items[0], emptyIsNull, [','] + rest, out);
      ScanOne(',', rest, Reader(out, shown[0], false, true));
      ScanBody(items[1..], emptyIsNull, out + [shown[0]]);
      ShownTail(items, emptyIsNull, out);
    }
  }

  lemma ShownTail(items: seq<string>, emptyIsNull: bool, out: seq<string>)
    requires |items| > 1
    ensures var shown, rest := AllShown(items, emptyIsNull), AllShown(items[1..], emptyIsNull);
            out + [shown[0]] + rest[..|rest| - 1] == out + shown[..|items| - 1]
              && rest[|rest| - 1] == shown[|items| - 1]
  {
  }

  /** Reading back an array literal gives the items, with NULL for each empty one that was printed as such. */
  lemma ParseOfPrint(items: seq<string>, emptyIsNull: bool)
    ensures Parse(Print(items, emptyIsNull)) == AllShown(items, emptyIsNull)
  {
    var lit, body := Print(items, emptyIsNull), Body(items, emptyIsNull);
    assert lit[1..|lit| - 1] == body;
    if items != [] {
      ScanBody(items, emptyIsNull, []);
      var shown := AllShown(items, emptyIsNull);
      assert [] + shown[..|items| - 1] + [shown[|items| - 1]] == shown;
    }
  }

  /** The round trip loses nothing exactly when no empty item was printed as NULL. */
  lemma RoundTrip(items: seq<string>, emptyIsNull: bool)
    ensures Parse(Print(items, emptyIsNull)) == items <==> !emptyIsNull || "" !in items
  {
    ParseOfPrint(items, emptyIsNull);
    var shown := AllShown(items, emptyIsNull);
    if emptyIsNull && "" in items {
      var k :| 0 <= k < |items| && items[k] == "";
      assert shown[k] == "NULL" != items[k];
    } else {
      assert shown == items;
    }
  }

  // ---- what Postgres makes of it

  /** Items with a comma between each two. */
  function Commas(texts: seq<string>): string {
    if texts == [] then ""
    else if |texts| == 1 then texts[0]
    else texts[0] + ("," + Commas(texts[1..]))
  }

  /**
    The item in quotes, with a backslash in front of each quote and each backslash of its own; or bare, if it may be.
   */
  predicate Denotes(text: string, s: string) {
    || (s != "" && '"' !in s && ',' !in s && text == s)
    || (|text| >= 2 && text[0] == text[|text| - 1] == '"' && IsEscaped(text[1..|text| - 1], s))
  }

  predicate IsEscaped(text: string, s: string)
    decreases |s|
  {
    if s == "" then text == ""
    else if s[0] in "\"\\" then |text| >= 2 && text[0] == '\\' && text[1] == s[0] && IsEscaped(text[2..], s[1..])
    else |text| >= 1 && text[0] == s[0] && IsEscaped(text[1..], s[1..])
  }

  lemma {:induction false} EscapedIs(text: string, s: string)
    ensures IsEscaped(text, s) <==> text == Escape(s)
    decreases |s|
  {
    if s != "" {
      if s[0] in "\"\\" {
        if |text| >= 2 {
          EscapedIs(text[2..], s[1..]);
          assert text == text[..2] + text[2..];
        }
        assert Escape(s)[2..] == Escape(s[1..]);
      } else {
        if |text| >= 1 {
          EscapedIs(text[1..], s[1..]);
          assert text == [text[0]] + text[1..];
        }
        assert Escape(s)[1..] == Escape(s[1..]);
      }
    }
  }

  predicate AllDenote(texts: seq<string>, items: seq<string>) {
    |texts| == |items| && forall k :: 0 <= k < |items| ==> Denotes(texts[k], items[k])
  }

  lemma ScanDenoted(text: string, s: string, rest: string, out: seq<string>)
    requires Denotes(text, s)
    ensures Scan(text + rest, Reader(out, "", false, false)) == Scan(rest, Reader(out, s, false, true))
  {
    hide Scan, Escape, IsEscaped, Item;
    if s != "" && '"' !in s && ',' !in s && text == s {
      ScanWord(s, rest, out, "", false);
      assert "" + s == s;
    } else {
      QuotedIs(text, s);
      ScanItem(s, false, rest, out);
    }
  }

  lemma QuotedIs(text: string, s: string)
    requires |text| >= 2 && text[0] == text[|text| - 1] == '"' && IsEscaped(text[1..|text| - 1], s)
    ensures text == Item(s, false)
  {
    EscapedIs(text[1..|text| - 1], s);
    assert text == [text[0]] + text[1..|text| - 1] + [text[|text| - 1]];
  }

  lemma {:induction false} ScanDenotedItems(texts: seq<string>, items: seq<string>, out: seq<string>)
    requires AllDenote(texts, items) && items != []
    ensures var last := |items| - 1;
            Scan(Commas(texts), Reader(out, "", false, false)) == Reader(out + items[..last], items[last], false, true)
    decreases |items|
  {
    hide Denotes;
    if |items| == 1 {
      ScanDenoted(texts[0], items[0], "", out);
      assert texts[0] + "" == texts[0] && out + items[..0] == out;
    } else {
      var rest := Commas(texts[1..]);
      ScanDenoted(texts[0], items[0], [','] + rest, out);
      ScanOne(',', rest, Reader(out, items[0], false, true));
      ScanDenotedItems(texts[1..], items[1..], out + [items[0]]);
      assert out + [items[0]] + items[1..][..|items| - 2] == out + items[..|items| - 1];
    }
  }

  lemma NoItems(texts: seq<string>)
    requires texts == []
    ensures Commas(texts) == "" && Scan("", START) == START
  {
  }

  /** An array literal, some of its items quoted and some bare, reads as the items it denotes. */
  lemma ParseOfDenoted(texts: seq<string>, items: seq<string>)
    requires AllDenote(texts, items)
    ensures Parse("{" + Commas(texts) + "}") == items
  {
    hide Denotes, Scan, Commas;
    var lit := "{" + Commas(texts) + "}";
    assert lit[1..|lit| - 1] == Commas(texts);
    if items == [] {
      NoItems(texts);
    } else {
      ScanDenotedItems(texts, items, []);
      assert [] + items[..|items| - 1] + [items[|items| - 1]] == items;
    }
  }

  /** What is printed for an item: quoted, but for an empty one that is to be NULL. */
  predicate PrintedAs(text: string, s: string, emptyIsNull: bool) {
    if emptyIsNull && s == "" then text == "NULL"
    else |text| >= 2 && text[0] == text[|text| - 1] == '"' && IsEscaped(text[1..|text| - 1], s)
  }

  lemma {:induction false} BodyIs(items: seq<string>, emptyIsNull: bool) returns (texts: seq<string>)
    ensures |texts| == |items| && forall k :: 0 <= k < |items| ==> PrintedAs(texts[k], items[k], emptyIsNull)
    ensures Body(items, emptyIsNull) == Commas(texts)
    decreases |items|
  {
    if items == [] {
      texts := [];
    } else {
      var first := Item(items[0], emptyIsNull);
      assert PrintedAs(first, items[0], emptyIsNull) by {
        EscapedIs(Escape(items[0]), items[0]);
        assert first != "NULL" ==> first[1..|first| - 1] == Escape(items[0]);
      }
      var rest := BodyIs(items[1..], emptyIsNull);
      texts := [first] + rest;
      assert texts[1..] == rest;
      if |items| > 1 { BodyHead(items, emptyIsNull); }
    }
  }

  /** What is printed: every item in its place, between braces, with commas. */
  lemma PrintIs(items: seq<string>, emptyIsNull: bool) returns (texts: seq<string>)
    ensures |texts| == |items| && forall k :: 0 <= k < |items| ==> PrintedAs(texts[k], items[k], emptyIsNull)
    ensures Print(items, emptyIsNull) == "{" + Commas(texts) + "}"
  {
    texts := BodyIs(items, emptyIsNull);
  }

  // ---- the loops

  lemma EscapeAppend(s: string, c: char)
    ensures Escape(s + [c]) == Escape(s) + EscapeOne(c)
  {
    if s != "" {
      assert (s + [c])[1..] == s[1..] + [c];
      EscapeAppend(s[1..], c);
    }
  }

  lemma BodyAppend(items: seq<string>, s: string, emptyIsNull: bool)
    ensures Body(items + [s], emptyIsNull) ==
            if items == [] then Item(s, emptyIsNull) else Body(items, emptyIsNull) + "," + Item(s, emptyIsNull)
    decreases |items|
  {
    if |items| > 1 {
      assert (items + [s])[1..] == items[1..] + [s];
      BodyAppend(items[1..], s, emptyIsNull);
      var first, rest, last := Item(items[0], emptyIsNull), Body(items[1..], emptyIsNull), Item(s, emptyIsNull);
      Assoc(first + ",", rest + ",", last);
      Assoc(first + ",", rest, ",");
    }
  }

  lemma PrintStep(items: seq<string>, i: nat, emptyIsNull: bool)
    requires i < |items|
    ensures "{" + Body(items[..i + 1], emptyIsNull) ==
            "{" + Body(items[..i], emptyIsNull) + (if i == 0 then "" else ",") + Item(items[i], emptyIsNull)
  {
    assert items[..i + 1] == items[..i] + [items[i]];
    BodyAppend(items[..i], items[i], emptyIsNull);
    Assoc("{", Body(items[..i], emptyIsNull), ",");
    Assoc("{", Body(items[..i], emptyIsNull) + ",", Item(items[i], emptyIsNull));
  }

  method PrintArray(items: seq<string>, emptyIsNull: bool) returns (s: string)
    ensures s == Print(items, emptyIsNull)
  {
    s := "{";
    for i := 0 to |items|
      invariant s == "{" + Body(items[..i], emptyIsNull)
    {
      PrintStep(items, i, emptyIsNull);
      if i != 0 {
        s := s + ",";
      }
      if emptyIsNull && items[i] == "" {
        s := s + "NULL";
        continue;
      }
      var quoted := PrintQuoted(items[i]);
      s := s + quoted;
    }
    assert items[..|items|] == items;
    s := s + "}";
  }

  method PrintQuoted(item: string) returns (s: string)
    ensures s == "\"" + Escape(item) + "\""
  {
    s := "\"";
    for k := 0 to |item|
      invariant s == "\"" + Escape(item[..k])
    {
      EscapeAppend(item[..k], item[k]);
      assert item[..k + 1] == item[..k] + [item[k]];
      if item[k] == '"' || item[k] == '\\' {
        s := s + "\\";
      }
      s := s + [item[k]];
    }
    assert item[..|item|] == item;
    s := s + "\"";
  }

  /** What the reader does at position j. */
  lemma ReadAt(body: string, j: nat, r: Reader)
    requires j < |body|
    ensures Scan(body[j..], r) ==
            if r.quoted && body[j] == '\\' && j + 1 < |body| then Scan(body[j + 2..], r.(cur := r.cur + [body[j + 1]]))
            else Scan(body[j + 1..], ReadOne(body[j], r))
  {
    if r.quoted && body[j] == '\\' && j + 1 < |body| {
      assert body[j..][2..] == body[j + 2..];
    } else {
      assert body[j..][1..] == body[j + 1..];
    }
  }

  method ParseArray(lit: string) returns (out: seq<string>)
    ensures out == Parse(lit)
  {
    out := [];
    if |lit| < 2 {
      return;
    }
    var cur, quoted, inItem := "", false, false;
    ghost var body := lit[1..|lit| - 1];
    var i := 1;
    assert body[0..] == body;
    while i + 1 < |lit|
      invariant 1 <= i <= |lit| - 1
      invariant Scan(body, START) == Scan(body[i - 1..], Reader(out, cur, quoted, inItem))
    {
      ReadAt(body, i - 1, Reader(out, cur, quoted, inItem));
      var c := lit[i];
      if quoted {
        if c == '\\' && i + 2 < |lit| {
          i := i + 1;
          cur := cur + [lit[i]];
        } else if c == '"' {
          quoted := false;
        } else {
          cur := cur + [c];
        }
      } else if c == '"' {
        quoted, inItem := true, true;
      } else if c == ',' {
        out := out + [cur];
        cur, inItem := "", false;
      } else {
        cur := cur + [c];
        inItem := true;
      }
      i := i + 1;
    }
    assert body[i - 1..] == "";
    if inItem || cur != "" || |lit| > 2 {
      out := out + [cur];
    }
  }
}
