/**
 * The helpers of pkg/metrics/common.go. The same isInSlice, isNotInSlice and
 * createMatchMap appear, character for character, in internal/metrics/common.go
 * and cmd/common.go; all three generations use these definitions.
 */
module Common {
  import opened GoText

  /** The waveform functions an item may name. */
  const ValidFunctions: seq<string> := ["rand", "asc", "desc", "sin"]

  /** The Prometheus metric kinds a metric may have. */
  const ValidMetricTypes: seq<string> := ["gauge", "counter", "summary", "histogram"]

  /** isInSlice: scans the slice and returns true at the first element equal to the search string. */
  function IsInSlice(searchString: string, slice: seq<string>): (found: bool)
    ensures found <==> exists i :: 0 <= i < |slice| && slice[i] == searchString
  {
    if |slice| == 0 then false
    else if slice[0] == searchString then true
    else
      var rest := IsInSlice(searchString, slice[1..]);
      assert forall i :: 1 <= i < |slice| ==> slice[i] == slice[1..][i - 1];
      rest
  }

  /** isNotInSlice */
  function IsNotInSlice(searchString: string, slice: seq<string>): (missing: bool)
    ensures missing <==> forall i :: 0 <= i < |slice| ==> slice[i] != searchString
  {
    !IsInSlice(searchString, slice)
  }

  /** isInSlice is sequence membership. */
  lemma IsInSliceIsMembership(searchString: string, slice: seq<string>)
    ensures IsInSlice(searchString, slice) <==> searchString in slice
  {
  }

  /** stringSlicesEqual: lengths first, then element by element, in order. */
  function StringSlicesEqual(a: seq<string>, b: seq<string>): (equal: bool)
    ensures equal <==> |a| == |b| && forall i :: 0 <= i < |a| ==> a[i] == b[i]
  {
    if |a| != |b| then false
    else if |a| == 0 then true
    else if a[0] != b[0] then false
    else
      var rest := StringSlicesEqual(a[1..], b[1..]);
      assert forall i :: 1 <= i < |a| ==> a[i] == a[1..][i - 1] && b[i] == b[1..][i - 1];
      rest
  }

  /** stringSlicesEqual holds exactly of identical slices. */
  lemma StringSlicesEqualIsEquality(a: seq<string>, b: seq<string>)
    ensures StringSlicesEqual(a, b) <==> a == b
  {
    if StringSlicesEqual(a, b) {
      assert a == b;
    }
  }

  /**
   * What regexp.FindStringSubmatch promises: no match gives an empty list,
   * a match gives one entry per group, the whole match at index 0.
   */
  predicate SubmatchShape(groupNames: seq<string>, submatches: seq<string>)
  {
    |submatches| == 0 || |submatches| == |groupNames|
  }

  /** a named group other than the whole match */
  predicate NamedGroup(groupNames: seq<string>, i: int)
    requires 0 <= i < |groupNames|
  {
    i != 0 && groupNames[i] != ""
  }

  /** the map createMatchMap's loop has built after visiting the first n groups */
  function MatchMapUpTo(groupNames: seq<string>, submatches: seq<string>, n: nat): map<string, string>
    requires |submatches| == |groupNames| && n <= |groupNames|
  {
    if n == 0 then map[]
    else
      var m := MatchMapUpTo(groupNames, submatches, n - 1);
      if NamedGroup(groupNames, n - 1) then m[groupNames[n - 1] := submatches[n - 1]] else m
  }

  /**
   * createMatchMap(regexp, line): the regular expression is abstracted to its
   * group names (regexp.SubexpNames()) and the list FindStringSubmatch
   * returned for the line.
   */
  function CreateMatchMap(groupNames: seq<string>, submatches: seq<string>): map<string, string>
    requires SubmatchShape(groupNames, submatches)
  {
    if |submatches| > 0 then MatchMapUpTo(groupNames, submatches, |groupNames|) else map[]
  }

  /** k is the name of a named group among the first n */
  predicate NamesGroupBelow(groupNames: seq<string>, k: string, n: int)
    requires n <= |groupNames|
  {
    exists j :: 0 <= j < n && NamedGroup(groupNames, j) && groupNames[j] == k
  }

  /** j is the last group named k among the first n */
  predicate LastNamedBelow(groupNames: seq<string>, k: string, j: int, n: int)
    requires 0 <= j < n <= |groupNames|
  {
    NamedGroup(groupNames, j) && groupNames[j] == k &&
    forall j' :: j < j' < n ==> groupNames[j'] != k
  }

  lemma {:induction false} MatchMapUpToSpec(groupNames: seq<string>, submatches: seq<string>, n: nat, k: string)
    requires |submatches| == |groupNames| && n <= |groupNames|
    ensures k in MatchMapUpTo(groupNames, submatches, n) <==> NamesGroupBelow(groupNames, k, n)
    ensures k in MatchMapUpTo(groupNames, submatches, n) ==>
      exists j :: 0 <= j < n && LastNamedBelow(groupNames, k, j, n) && MatchMapUpTo(groupNames, submatches, n)[k] == submatches[j]
  {
    if n > 0 {
      MatchMapUpToSpec(groupNames, submatches, n - 1, k);
      var m := MatchMapUpTo(groupNames, submatches, n - 1);
      if NamedGroup(groupNames, n - 1) && groupNames[n - 1] == k {
        assert LastNamedBelow(groupNames, k, n - 1, n);
      } else if k in m {
        var j :| 0 <= j < n - 1 && LastNamedBelow(groupNames, k, j, n - 1) && m[k] == submatches[j];
        assert LastNamedBelow(groupNames, k, j, n);
      }
      if NamesGroupBelow(groupNames, k, n) && !(NamedGroup(groupNames, n - 1) && groupNames[n - 1] == k) {
        var j :| 0 <= j < n && NamedGroup(groupNames, j) && groupNames[j] == k;
        assert j < n - 1;
      }
    }
  }

  /**
   * createMatchMap returns an empty map when the line does not match;
   * otherwise its keys are exactly the names of the named groups (the whole
   * match, group 0, is never a key), and each maps to the capture of the last
   * group bearing that name.
   */
  lemma CreateMatchMapSpec(groupNames: seq<string>, submatches: seq<string>, k: string)
    requires SubmatchShape(groupNames, submatches)
    ensures |submatches| == 0 ==> CreateMatchMap(groupNames, submatches) == map[]
    ensures |submatches| > 0 ==>
      (k in CreateMatchMap(groupNames, submatches) <==> NamesGroupBelow(groupNames, k, |groupNames|))
    ensures |submatches| > 0 && k in CreateMatchMap(groupNames, submatches) ==>
      exists j :: 0 <= j < |groupNames| && LastNamedBelow(groupNames, k, j, |groupNames|) &&
                  CreateMatchMap(groupNames, submatches)[k] == submatches[j]
  {
    if |submatches| > 0 {
      MatchMapUpToSpec(groupNames, submatches, |groupNames|, k);
    }
  }

  /**
   * With distinct group names (the case of every regular expression of the
   * simulator) each named group maps to its own capture.
   */
  lemma CreateMatchMapDistinctNames(groupNames: seq<string>, submatches: seq<string>, j: int)
    requires |submatches| == |groupNames| > 0
    requires forall a, b :: 0 <= a < b < |groupNames| && NamedGroup(groupNames, a) ==> groupNames[a] != groupNames[b]
    requires 0 <= j < |groupNames| && NamedGroup(groupNames, j)
    ensures groupNames[j] in CreateMatchMap(groupNames, submatches)
    ensures CreateMatchMap(groupNames, submatches)[groupNames[j]] == submatches[j]
  {
    var k := groupNames[j];
    CreateMatchMapSpec(groupNames, submatches, k);
    assert NamesGroupBelow(groupNames, k, |groupNames|);
  }
}
