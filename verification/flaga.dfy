/** Command-line flag values that remember whether they were given (package
    flaga): a comma-separated list that accumulates over repeated flags, and
    a single string. */
module Flaga {
  import opened Wrappers
  import opened Errors
  import Text

  class Strings {
    var values: seq<string>
    var isAssigned: bool

    /** The zero value: no values, not isAssigned. */
    constructor ()
      ensures values == [] && !isAssigned
    {
      values, isAssigned := [], false;
    }

    function Get(): (v: seq<string>)
      reads this
      ensures v == values
    {
      values
    }

    /** Set marks the flag isAssigned and appends the comma-separated pieces
        of s, empty pieces included; it never fails. */
    method Set(s: string) returns (err: Option<Error>)
      modifies this
      ensures err.None? && isAssigned
      ensures values == old(values) + Text.Split(s, ',')
      ensures |values| == |old(values)| + multiset(s)[','] + 1
      ensures Text.Join(values[|old(values)|..], ',') == s
    {
      isAssigned := true;
      var f := Text.Split(s, ',');
      values := values + f;
      Text.SplitShape(s, ',');
      Text.JoinSplit(s, ',');
      assert values[|old(values)|..] == f;
      err := None;
    }

    /** String reports the values in Go syntax (`%#v`): the zero value,
        never Set, prints as a nil slice. */
    function String(): (s: string)
      reads this
      ensures values == [] <==> s == "[]string(nil)"
      ensures values != [] ==> |s| >= 10 && s[..9] == "[]string{"
    {
      Text.GoSliceSyntax(values)
    }

    /** Contains scans the values for one equal to val. */
    method Contains(val: string) returns (r: bool)
      ensures r <==> val in values
    {
      var i := 0;
      while i < |values|
        invariant 0 <= i <= |values|
        invariant val !in values[..i]
      {
        if values[i] == val {
          return true;
        }
        i := i + 1;
      }
      assert values[..i] == values;
      return false;
    }
  }

  class String {
    var value: string
    var isAssigned: bool

    constructor ()
      ensures value == "" && !isAssigned
    {
      value, isAssigned := "", false;
    }

    function Get(): (v: string)
      reads this
      ensures v == value
    {
      value
    }

    /** Set replaces the value and marks the flag isAssigned, even for "". */
    method Set(s: string) returns (err: Option<Error>)
      modifies this
      ensures err.None? && isAssigned && value == s
    {
      isAssigned := true;
      value := s;
      err := None;
    }

    /** String reports the value itself. */
    function String(): (s: string)
      reads this
      ensures s == Get()
    {
      Get()
    }
  }
}
