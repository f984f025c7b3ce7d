/**
 * The S3 extractor of the Airflow exercise pipeline: every key under a prefix whose
 * lower-cased form ends in ".csv" is read; frames with no data are left out and a read
 * error aborts the extraction. The key listing and the reader are inputs.
 */
module AirflowExtract {
  import opened Results
  import opened Text
  import opened Frames

  /** Reads the CSV at an s3:// path: the parsed frame, or the error the read raised. */
  type Reader = string -> Result<Frame>

  function Path(bucket: string, key: string): string {
    "s3://" + bucket + "/" + key
  }

  predicate IsCsv(key: string) {
    EndsWith(Lower(key), ".csv")
  }

  /** One iteration of the loop over the keys. */
  function Step(acc: Result<map<string, Frame>>, bucket: string, read: Reader, key: string): Result<map<string, Frame>> {
    if acc.Err? || !IsCsv(key) then acc
    else match read(Path(bucket, key))
      case Err(_) => Err(ReadFailure(Path(bucket, key)))
      case Ok(df) => if Empty(df) then acc else Ok(acc.value[key := df])
  }

  /** The result after the loop has visited the given keys. */
  function Collect(bucket: string, read: Reader, keys: seq<string>): Result<map<string, Frame>> {
    if keys == [] then Ok(map[])
    else Step(Collect(bucket, read, keys[..|keys| - 1]), bucket, read, keys[|keys| - 1])
  }

  /** extract_data_from_s3(bucket, folder) given the listed keys: ValueError for an empty listing. */
  method ExtractDataFromS3(bucket: string, folder: string, keys: seq<string>, read: Reader) returns (r: Result<map<string, Frame>>)
    ensures keys == [] ==> r.Err? && r.error.ValueError?
    ensures keys != [] ==> r == Collect(bucket, read, keys)
  {
    if keys == [] {
      return Err(ValueError("No files found in bucket '" + bucket + "' with prefix '" + folder + "'"));
    }
    var dfs: map<string, Frame> := map[];
    var i := 0;
    while i < |keys|
      invariant 0 <= i <= |keys|
      invariant Collect(bucket, read, keys[..i]) == Ok(dfs)
    {
      assert keys[..i + 1][..i] == keys[..i];
      var key := keys[i];
      if IsCsv(key) {
        var df := read(Path(bucket, key));
        if df.Err? {
          assert keys[..i + 1][i] == key;
          assert Collect(bucket, read, keys[..i + 1]) == Err(ReadFailure(Path(bucket, key)));
          StaysFailed(bucket, read, keys, i + 1);
          assert keys[..|keys|] == keys;
          return Err(ReadFailure(Path(bucket, key)));
        }
        if !Empty(df.value) {
          dfs := dfs[key := df.value];
        }
      }
      i := i + 1;
    }
    assert keys[..|keys|] == keys;
    r := Ok(dfs);
  }

  /** Once a read has failed, the extraction stays failed with that error. */
  lemma StaysFailed(bucket: string, read: Reader, keys: seq<string>, n: nat)
    requires n <= |keys| && Collect(bucket, read, keys[..n]).Err?
    ensures forall j :: n <= j <= |keys| ==> Collect(bucket, read, keys[..j]) == Collect(bucket, read, keys[..n])
  {
    forall j | n <= j <= |keys| ensures Collect(bucket, read, keys[..j]) == Collect(bucket, read, keys[..n]) {
      StaysFailedTo(bucket, read, keys, n, j);
    }
  }

  lemma {:induction false} StaysFailedTo(bucket: string, read: Reader, keys: seq<string>, n: nat, j: nat)
    requires n <= j <= |keys| && Collect(bucket, read, keys[..n]).Err?
    ensures Collect(bucket, read, keys[..j]) == Collect(bucket, read, keys[..n])
    decreases j
  {
    if j > n {
      StaysFailedTo(bucket, read, keys, n, j - 1);
      assert keys[..j][..j - 1] == keys[..j - 1];
    }
  }

  /** On success the result maps exactly the CSV keys whose frames have data, each to the frame read from it;
      every key of the result was listed. */
  lemma {:induction false} CollectSpec(bucket: string, read: Reader, keys: seq<string>, key: string)
    requires Collect(bucket, read, keys).Ok?
    ensures var m := Collect(bucket, read, keys).value;
      && (key in m <==> key in keys && IsCsv(key) && read(Path(bucket, key)).Ok? && !Empty(read(Path(bucket, key)).value))
      && (key in m ==> m[key] == read(Path(bucket, key)).value)
  {
    if keys != [] {
      var init := keys[..|keys| - 1];
      var last := keys[|keys| - 1];
      var c := Collect(bucket, read, init);
      assert Collect(bucket, read, keys) == Step(c, bucket, read, last);
      assert c.Ok?;
      CollectSpec(bucket, read, init, key);
      InLast(keys, key);
      if IsCsv(last) {
        assert read(Path(bucket, last)).Ok?;
      }
    }
  }

  lemma InLast(keys: seq<string>, key: string)
    requires keys != []
    ensures key in keys <==> key in keys[..|keys| - 1] || key == keys[|keys| - 1]
  {
    assert keys == keys[..|keys| - 1] + [keys[|keys| - 1]];
  }

  /** A CSV key whose read fails makes the whole extraction fail. */
  lemma {:induction false} CollectFails(bucket: string, read: Reader, keys: seq<string>, k: int)
    requires 0 <= k < |keys| && IsCsv(keys[k]) && read(Path(bucket, keys[k])).Err?
    ensures Collect(bucket, read, keys).Err?
  {
    var init := keys[..|keys| - 1];
    if k < |keys| - 1 {
      assert init[k] == keys[k];
      CollectFails(bucket, read, init, k);
    }
  }
}
