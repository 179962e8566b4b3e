/** The content-addressed blob store. */
module BlobStore {
  import opened Wrappers
  import opened Tables

  type Blobs = map<string, string>

  datatype Blob = Blob(hash: string, data: string)

  /** The hash function yields names the store accepts. */
  ghost predicate NamesAreValid(hash: string -> string) { forall x: string :: ValidHash(hash(x)) }

  ghost predicate ContentAddressed(hash: string -> string, blobs: Blobs) {
    forall h :: h in blobs ==> ValidHash(h) && hash(blobs[h]) == h
  }

  predicate Has(blobs: Blobs, h: string) { ValidHash(h) && h in blobs }

  /** The store after data was put; "" instead of a name when data is not what was expected. */
  function Put(hash: string -> string, blobs: Blobs, data: string, want: string): (Blobs, string) {
    var h := hash(data);
    if want != "" && want != h then (blobs, "")
    else if Has(blobs, h) then (blobs, h)
    else (blobs[h := data], h)
  }

  /** A batch is stored up to the first blob whose bytes do not match its name. */
  function PutAll(hash: string -> string, blobs: Blobs, batch: seq<Blob>): (Blobs, bool)
    decreases |batch|
  {
    if batch == [] then (blobs, true)
    else
      var (blobs', name) := Put(hash, blobs, batch[0].data, batch[0].hash);
      if name == "" then (blobs, false) else PutAll(hash, blobs', batch[1..])
  }

  /** Nothing in the store is ever changed or lost, and what was put is there under its hash. */
  lemma {:induction false} PutAllKeeps(hash: string -> string, blobs: Blobs, batch: seq<Blob>)
    requires NamesAreValid(hash) && ContentAddressed(hash, blobs)
    ensures var (blobs', ok) := PutAll(hash, blobs, batch);
            && ContentAddressed(hash, blobs')
            && (forall h :: h in blobs ==> h in blobs' && blobs'[h] == blobs[h])
            && (ok <==> forall k :: 0 <= k < |batch| ==> batch[k].hash == "" || batch[k].hash == hash(batch[k].data))
            && (ok ==> forall k :: 0 <= k < |batch| ==> Has(blobs', hash(batch[k].data)))
    decreases |batch|
  {
    if batch != [] {
      var (one, name) := Put(hash, blobs, batch[0].data, batch[0].hash);
      assert ValidHash(hash(batch[0].data));
      if name != "" {
        PutAllKeeps(hash, one, batch[1..]);
        var (blobs', ok) := PutAll(hash, one, batch[1..]);
        assert forall k :: 1 <= k < |batch| ==> batch[k] == batch[1..][k - 1];
        assert ok ==> forall k :: 0 <= k < |batch| ==> Has(blobs', hash(batch[k].data)) by {
          assert hash(batch[0].data) in one;
        }
      }
    }
  }

  /** A batch stores its blobs up to the first one whose bytes do not match its name, and nothing else. */
  lemma {:induction false} PutAllStores(hash: string -> string, blobs: Blobs, batch: seq<Blob>, n: nat)
    requires NamesAreValid(hash) && ContentAddressed(hash, blobs) && n <= |batch|
    requires forall k :: 0 <= k < n ==> batch[k].hash == "" || batch[k].hash == hash(batch[k].data)
    requires n < |batch| ==> batch[n].hash != "" && batch[n].hash != hash(batch[n].data)
    ensures var (blobs', ok) := PutAll(hash, blobs, batch);
            && (ok <==> n == |batch|)
            && forall h :: h in blobs' <==> h in blobs || exists k :: 0 <= k < n && hash(batch[k].data) == h
    decreases |batch|
  {
    if n > 0 {
      var (one, name) := Put(hash, blobs, batch[0].data, batch[0].hash);
      assert ValidHash(hash(batch[0].data));
      PutAllStores(hash, one, batch[1..], n - 1);
      var blobs' := PutAll(hash, blobs, batch).0;
      forall h
        ensures h in blobs' <==> h in blobs || exists k :: 0 <= k < n && hash(batch[k].data) == h
      {
        assert h in one <==> h in blobs || hash(batch[0].data) == h;
        if k :| 0 <= k < n && hash(batch[k].data) == h {
          assert k > 0 ==> batch[1..][k - 1] == batch[k];
        }
        if k :| 0 <= k < n - 1 && hash(batch[1..][k].data) == h {
          assert batch[k + 1] == batch[1..][k];
        }
      }
    }
  }

  /**
    Writers cannot conflict: when hashing tells the two contents apart, the order of two puts matters neither to the
    store nor to what either writer is told.
   */
  lemma PutsCommute(hash: string -> string, blobs: Blobs, a: string, wantA: string, b: string, wantB: string)
    requires NamesAreValid(hash) && (hash(a) == hash(b) ==> a == b)
    ensures Put(hash, Put(hash, blobs, a, wantA).0, b, wantB).0 == Put(hash, Put(hash, blobs, b, wantB).0, a, wantA).0
    ensures Put(hash, Put(hash, blobs, a, wantA).0, b, wantB).1 == Put(hash, blobs, b, wantB).1
    ensures Put(hash, Put(hash, blobs, b, wantB).0, a, wantA).1 == Put(hash, blobs, a, wantA).1
  {
    assert ValidHash(hash(a)) && ValidHash(hash(b));
  }

  class Cas {
    const hash: string -> string
    var files: Blobs

    ghost predicate Valid()
      reads this
    {
      NamesAreValid(hash) && ContentAddressed(hash, files)
    }

    constructor (hash: string -> string)
      requires NamesAreValid(hash)
      ensures Valid() && this.hash == hash && files == map[]
    {
      this.hash := hash;
      files := map[];
    }

    /** A store whose directory holds files already. */
    constructor Open(hash: string -> string, files: Blobs)
      requires NamesAreValid(hash) && ContentAddressed(hash, files)
      ensures Valid() && this.hash == hash && this.files == files
    {
      this.hash := hash;
      this.files := files;
    }

    method PutBlob(data: string, want: string) returns (name: string)
      requires Valid()
      modifies this
      ensures Valid()
      ensures (files, name) == Put(hash, old(files), data, want)
      ensures name != "" ==> Has(files, name) && hash(files[name]) == hash(data)
    {
      var h := hash(data);
      assert ValidHash(h);
      if want != "" && want != h {
        return "";
      }
      if Has(files, h) {
        return h;
      }
      files := files[h := data];
      name := h;
    }

    method Get(h: string) returns (data: Option<string>)
      requires Valid()
      ensures data == if h in files then Some(files[h]) else None
      ensures data.Some? ==> hash(data.value) == h
    {
      if !ValidHash(h) || h !in files {
        return None;
      }
      data := Some(files[h]);
    }
  }
}
