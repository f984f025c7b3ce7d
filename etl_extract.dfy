/**
 * The S3 extractor of the ETL exercise pipeline: the CSV objects under a prefix are read
 * and sorted into four fixed slots — sales, product, customer, shipping — by the first slot
 * name that occurs in the lower-cased key. The object listing and the reader are inputs.
 */
module EtlExtract {
  import opened Results
  import opened Text
  import opened Frames

  /** The slots, in the order a key is tested against them. */
  const SlotNames: seq<string> := ["sales", "product", "customer", "shipping"]

  /** Reads the CSV at an s3:// path: the parsed frame, or None when reading fails. */
  type Reader = string -> Option<Frame>

  function Path(bucket: string, key: string): string {
    "s3://" + bucket + "/" + key
  }

  /** The first slot whose name occurs in the lower-cased key, if any. */
  function SlotOf(key: string): (j: Option<nat>)
    ensures j.Some? ==> j.value < |SlotNames| && Contains(Lower(key), SlotNames[j.value])
    ensures j.Some? ==> forall l :: 0 <= l < j.value ==> !Contains(Lower(key), SlotNames[l])
    ensures j.None? ==> forall l :: 0 <= l < |SlotNames| ==> !Contains(Lower(key), SlotNames[l])
  {
    FirstSlot(Lower(key), 0)
  }

  function FirstSlot(lk: string, from: nat): (j: Option<nat>)
    requires from <= |SlotNames|
    ensures j.Some? ==> from <= j.value < |SlotNames| && Contains(lk, SlotNames[j.value])
    ensures j.Some? ==> forall l :: from <= l < j.value ==> !Contains(lk, SlotNames[l])
    ensures j.None? ==> forall l :: from <= l < |SlotNames| ==> !Contains(lk, SlotNames[l])
    decreases |SlotNames| - from
  {
    if from == |SlotNames| then None
    else if Contains(lk, SlotNames[from]) then Some(from)
    else FirstSlot(lk, from + 1)
  }

  /** Key k lands in slot j: it is a CSV key (case-insensitively), it reads, and j is its first matching slot. */
  predicate Lands(bucket: string, read: Reader, key: string, j: nat) {
    EndsWith(Lower(key), ".csv") && read(Path(bucket, key)).Some? && SlotOf(key) == Some(j)
  }

  /** One iteration of the extraction loop. */
  function Step(slots: seq<Option<Frame>>, bucket: string, read: Reader, key: string): (r: seq<Option<Frame>>)
    requires |slots| == |SlotNames|
    ensures |r| == |SlotNames|
  {
    if !EndsWith(Lower(key), ".csv") then slots
    else
      var df := read(Path(bucket, key));
      if df.None? then slots
      else match SlotOf(key)
        case None => slots
        case Some(j) => slots[j := df]
  }

  /** The slots after the loop has visited the given keys. */
  function Fill(bucket: string, read: Reader, keys: seq<string>): (r: seq<Option<Frame>>)
    ensures |r| == |SlotNames|
  {
    if keys == [] then [None, None, None, None]
    else Step(Fill(bucket, read, keys[..|keys| - 1]), bucket, read, keys[|keys| - 1])
  }

  /** s3_extract(bucket, prefix) given the listed keys: FileNotFoundError for an empty listing; otherwise the four slots. */
  method S3Extract(bucket: string, prefix: string, keys: seq<string>, read: Reader) returns (r: Result<seq<Option<Frame>>>)
    ensures keys == [] <==> r.Err?
    ensures r.Err? ==> r.error == FileNotFound(prefix)
    ensures r.Ok? ==> r.value == Fill(bucket, read, keys)
  {
    if keys == [] {
      return Err(FileNotFound(prefix));
    }
    var slots: seq<Option<Frame>> := [None, None, None, None];
    var i := 0;
    while i < |keys|
      invariant 0 <= i <= |keys|
      invariant slots == Fill(bucket, read, keys[..i])
    {
      assert keys[..i + 1][..i] == keys[..i];
      var key := keys[i];
      if EndsWith(Lower(key), ".csv") {
        var df := read(Path(bucket, key));
        if df.Some? {
          var k := 0;
          while k < |SlotNames|
            invariant 0 <= k <= |SlotNames|
            invariant FirstSlot(Lower(key), 0) == FirstSlot(Lower(key), k)
          {
            if Contains(Lower(key), SlotNames[k]) {
              slots := slots[k := df];
              break;
            }
            k := k + 1;
          }
        }
      }
      i := i + 1;
    }
    assert keys[..|keys|] == keys;
    r := Ok(slots);
  }

  /** A slot that no key lands in stays empty. */
  lemma {:induction false} FillEmpty(bucket: string, read: Reader, keys: seq<string>, j: nat)
    requires j < |SlotNames|
    requires forall k :: 0 <= k < |keys| ==> !Lands(bucket, read, keys[k], j)
    ensures Fill(bucket, read, keys)[j].None?
  {
    if keys != [] {
      var init := keys[..|keys| - 1];
      assert forall k :: 0 <= k < |init| ==> init[k] == keys[k];
      FillEmpty(bucket, read, init, j);
    }
  }

  /** Slot j holds the frame of the last key that lands in it. */
  lemma {:induction false} FillLast(bucket: string, read: Reader, keys: seq<string>, j: nat, k: int)
    requires j < |SlotNames| && 0 <= k < |keys| && Lands(bucket, read, keys[k], j)
    requires forall l :: k < l < |keys| ==> !Lands(bucket, read, keys[l], j)
    ensures Fill(bucket, read, keys)[j] == read(Path(bucket, keys[k]))
  {
    var init := keys[..|keys| - 1];
    assert forall l :: 0 <= l < |init| ==> init[l] == keys[l];
    if k < |keys| - 1 {
      FillLast(bucket, read, init, j, k);
    }
  }

  /** Keys are tried against the slots in order, case-insensitively: "Sales.CSV" goes to sales,
      "productsales.csv" to sales although it names a product too, and "a.csv" nowhere. */
  lemma SlotExamples()
    ensures SlotOf("Sales.CSV") == Some(0)
    ensures SlotOf("productsales.csv") == Some(0)
    ensures SlotOf("a.csv") == None
  {
    assert Lower("Sales.CSV") == "sales.csv";
    assert OccursAt("sales.csv", SlotNames[0], 0);
    assert Lower("productsales.csv") == "productsales.csv";
    assert OccursAt("productsales.csv", SlotNames[0], 7);
    assert Lower("a.csv") == "a.csv";
    assert "a.csv"[0..5][0] != SlotNames[0][0];
  }
}
