/** Comma-separated records as the recorder writes them: fields joined by
    ',' and split back at every ','. */
module Csv {

  /** The fields separated by single commas. */
  function Join(fields: seq<string>): string
  {
    if |fields| == 0 then ""
    else if |fields| == 1 then fields[0]
    else fields[0] + "," + Join(fields[1..])
  }

  /** Position of the first comma. */
  function FirstComma(s: string): (i: nat)
    requires ',' in s
    ensures i < |s| && s[i] == ','
    ensures ',' !in s[..i]
  {
    if s[0] == ',' then 0
    else
      assert ',' in s[1..] by {
        var k :| 0 <= k < |s| && s[k] == ',';
        assert s[1..][k - 1] == ',';
      }
      var j := FirstComma(s[1..]);
      assert s[..j + 1] == [s[0]] + s[1..][..j];
      j + 1
  }

  /** The fields of a record: the maximal comma-free pieces, in order. */
  function Split(s: string): (fields: seq<string>)
    ensures |fields| >= 1
    ensures CommaFree(fields)
    decreases |s|
  {
    if ',' !in s then [s]
    else
      var i := FirstComma(s);
      [s[..i]] + Split(s[i + 1..])
  }

  /** Joining the fields of a record rebuilds the record. */
  lemma {:induction false} JoinSplit(s: string)
    ensures Join(Split(s)) == s
    decreases |s|
  {
    if ',' in s {
      var i := FirstComma(s);
      JoinSplit(s[i + 1..]);
      var rest := Split(s[i + 1..]);
      assert Split(s) == [s[..i]] + rest;
      assert s == s[..i] + "," + s[i + 1..];
      assert ([s[..i]] + rest)[1..] == rest;
    }
  }

  predicate CommaFree(fields: seq<string>)
  {
    forall k :: 0 <= k < |fields| ==> ',' !in fields[k]
  }

  /** Splitting a joined record gives back its fields when none contains a
      comma. */
  lemma {:induction false} SplitJoin(fields: seq<string>)
    requires |fields| >= 1
    requires CommaFree(fields)
    ensures Split(Join(fields)) == fields
    decreases |fields|
  {
    if |fields| == 1 {
      assert ',' !in fields[0];
    } else {
      var f := fields[0];
      var rest := fields[1..];
      var s := Join(fields);
      assert s == f + "," + Join(rest);
      assert ',' !in f;
      assert s[|f|] == ',';
      assert s[..|f|] == f;
      assert ',' in s;
      var i := FirstComma(s);
      assert i == |f|;
      assert s[i + 1..] == Join(rest);
      assert CommaFree(rest) by {
        forall k | 0 <= k < |rest| ensures ',' !in rest[k] {
          assert rest[k] == fields[k + 1];
        }
      }
      SplitJoin(rest);
      assert Split(s) == [f] + rest;
    }
  }
}
