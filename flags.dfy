/**
 * flags.go: the revision that moved the command-line flags into their own
 * file. It declares its own copy of `argumentList` (the same as the one in
 * filter.go) and the two filter lists, which start empty.
 */
module Flags {
  import opened Wrappers
  import opened GoStrings

  /** `argumentList`: a named flag value that collects every occurrence of the flag. */
  class ArgumentList {
    var name: string
    var values: seq<string>

    constructor (name: string, values: seq<string>)
      ensures this.name == name && this.values == values
    {
      this.name := name;
      this.values := values;
    }

    /** `String()`: the name, " = ", and the values separated by ", ". */
    function String(): string
      reads this
    {
      name + " = " + Join(values, ", ")
    }

    /**
     * `Set(value)`: appends one value at the end, keeping the earlier values
     * in their order, and never fails.
     */
    method Set(value: string) returns (err: Option<string>)
      modifies this
      ensures name == old(name)
      ensures values == old(values) + [value]
      ensures err == None
      ensures String() == old(String()) + (if old(values) == [] then "" else ", ") + value
    {
      if values != [] {
        JoinSnoc(values, value, ", ");
      }
      values := values + [value];
      err := None;
    }
  }

  /** The global `filterInclude` and `filterExclude` lists as the program starts: both empty. */
  method NewFilterLists() returns (includes: ArgumentList, excludes: ArgumentList)
    ensures fresh(includes) && fresh(excludes) && includes != excludes
    ensures includes.name == "include" && includes.values == []
    ensures excludes.name == "exclude" && excludes.values == []
  {
    includes := new ArgumentList("include", []);
    excludes := new ArgumentList("exclude", []);
  }

  /** Two `-include` occurrences on the command line: the list renders as both, in order. */
  method SetTwiceExample() returns (rendered: string)
    ensures rendered == "include = Page, Network"
  {
    var includes, _ := NewFilterLists();
    var _ := includes.Set("Page");
    var _ := includes.Set("Network");
    rendered := includes.String();
  }
}
