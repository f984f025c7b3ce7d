/**
 * The S3 extractor of the exam-preparation pipeline: the s3:// paths of the listed keys
 * that end in "." + file_type, compared case-sensitively, in listing order; an empty
 * listing and a listing with no match are both errors. The listing is an input.
 */
module ExamPrepExtract {
  import opened Results
  import opened Text
  import opened Frames

  function Path(bucket: string, key: string): string {
    "s3://" + bucket + "/" + key
  }

  /** The keys that end in "." + fileType, in order. */
  function MatchingKeys(keys: seq<string>, fileType: string): (m: seq<string>)
    ensures |m| <= |keys|
  {
    Pick(keys, seq(|keys|, i requires 0 <= i < |keys| => EndsWith(keys[i], "." + fileType)))
  }

  /** extract_data_from_s3(bucket, folder, file_type) given the listed keys. */
  function ExtractDataFromS3(bucket: string, folder: string, keys: seq<string>, fileType: string): (r: Result<seq<string>>)
  {
    if keys == [] then Err(PipelineException("No files found in s3://" + bucket + "/" + folder))
    else
      var m := MatchingKeys(keys, fileType);
      if m == [] then Err(PipelineException("No " + fileType + " files found in s3://" + bucket + "/" + folder))
      else Ok(seq(|m|, i requires 0 <= i < |m| => Path(bucket, m[i])))
  }

  /** Exactly the matching keys become paths; the call fails iff the listing is empty or nothing matches. */
  lemma ExtractSpec(bucket: string, folder: string, keys: seq<string>, fileType: string, key: string)
    ensures ExtractDataFromS3(bucket, folder, keys, fileType).Err? <==>
      forall k :: 0 <= k < |keys| ==> !EndsWith(keys[k], "." + fileType)
    ensures var r := ExtractDataFromS3(bucket, folder, keys, fileType);
      r.Ok? ==> (Path(bucket, key) in r.value <==> key in keys && EndsWith(key, "." + fileType))
  {
    var mask := seq(|keys|, i requires 0 <= i < |keys| => EndsWith(keys[i], "." + fileType));
    var m := MatchingKeys(keys, fileType);
    forall k | 0 <= k < |keys| && mask[k] ensures keys[k] in m {
      PickIncludes(keys, mask, k);
    }
    if m != [] {
      var k := PickAt(keys, mask, 0);
    }
    var r := ExtractDataFromS3(bucket, folder, keys, fileType);
    if r.Ok? {
      if Path(bucket, key) in r.value {
        var i :| 0 <= i < |m| && r.value[i] == Path(bucket, key);
        var k := PickAt(keys, mask, i);
        PathInjective(bucket, key, m[i]);
      }
      if key in keys && EndsWith(key, "." + fileType) {
        var k :| 0 <= k < |keys| && keys[k] == key;
        var i :| 0 <= i < |m| && m[i] == key;
        assert r.value[i] == Path(bucket, key);
      }
    }
  }

  lemma PathInjective(bucket: string, a: string, b: string)
    requires Path(bucket, a) == Path(bucket, b)
    ensures a == b
  {
    var n := |"s3://" + bucket + "/"|;
    assert a == Path(bucket, a)[n..];
    assert b == Path(bucket, b)[n..];
  }

  /** The extension test is case-sensitive: a ".CSV" key is not a csv file. */
  lemma CaseSensitive()
    ensures ExtractDataFromS3("b", "f", ["x.CSV"], "csv").Err?
    ensures ExtractDataFromS3("b", "f", ["x.csv"], "csv") == Ok(["s3://b/x.csv"])
  {
    assert "." + "csv" == ".csv";
    assert !EndsWith("x.CSV", ".csv") by {
      assert "x.CSV"[1..][1] != ".csv"[1];
    }
    assert EndsWith("x.csv", ".csv") by {
      assert "x.csv"[1..] == ".csv";
    }
    var upper := seq(1, i requires 0 <= i < 1 => EndsWith(["x.CSV"][i], "." + "csv"));
    assert upper == [false];
    assert Pick(["x.CSV"], upper) == [] by {
      assert ["x.CSV"][1..] == [] && upper[1..] == [];
    }
    var lower := seq(1, i requires 0 <= i < 1 => EndsWith(["x.csv"][i], "." + "csv"));
    assert lower == [true];
    assert Pick(["x.csv"], lower) == ["x.csv"] by {
      assert ["x.csv"][1..] == [] && lower[1..] == [];
    }
    var m := MatchingKeys(["x.csv"], "csv");
    assert m == ["x.csv"];
    assert Path("b", "x.csv") == "s3://b/x.csv";
    assert seq(|m|, i requires 0 <= i < |m| => Path("b", m[i])) == ["s3://b/x.csv"];
  }
}
