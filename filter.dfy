/**
 * filter.go: the repeatable `-include` / `-exclude` command-line lists and
 * the predicate that decides whether a log record is shown.
 */
module Filter {
  import opened Wrappers
  import opened GoStrings

  /** `argumentList`: a named flag value that collects every occurrence of the flag. */
  class ArgumentList {
    var name: string
    var values: seq<string>

    constructor (name: string, values: seq<string>)
      ensures this.name == name && this.values == values
    {
      this.name := name;
      this.values := values;
    }

    /** `String()`: the name, " = ", and the values separated by ", ". */
    function String(): string
      reads this
    {
      name + " = " + Join(values, ", ")
    }

    /**
     * `Set(value)`: appends one value at the end, keeping the earlier values
     * in their order, and never fails.
     */
    method Set(value: string) returns (err: Option<string>)
      modifies this
      ensures name == old(name)
      ensures values == old(values) + [value]
      ensures err == None
      ensures String() == old(String()) + (if old(values) == [] then "" else ", ") + value
    {
      if values != [] {
        JoinSnoc(values, value, ", ");
      }
      values := values + [value];
      err := None;
    }
  }

  /** The global `filterInclude` and `filterExclude` lists as the program starts: both empty. */
  method NewFilterLists() returns (includes: ArgumentList, excludes: ArgumentList)
    ensures fresh(includes) && fresh(excludes) && includes != excludes
    ensures includes.name == "include" && includes.values == []
    ensures excludes.name == "exclude" && excludes.values == []
  {
    includes := new ArgumentList("include", []);
    excludes := new ArgumentList("exclude", []);
  }

  /**
   * The rule `accept` implements, over the inputs joined with no separator:
   * no exclude pattern occurs in them, and either there are no include
   * patterns or at least one occurs.
   */
  ghost predicate Accepts(includes: seq<string>, excludes: seq<string>, values: seq<string>) {
    var value := Join(values, "");
    && (forall k :: 0 <= k < |excludes| ==> !Contains(value, excludes[k]))
    && (|includes| == 0 || exists k :: 0 <= k < |includes| && Contains(value, includes[k]))
  }

  /** `accept(values...)`, reading the global lists `filterInclude` and `filterExclude`. */
  method Accept(includes: ArgumentList, excludes: ArgumentList, values: seq<string>) returns (ok: bool)
    ensures ok == Accepts(includes.values, excludes.values, values)
  {
    var value := Join(values, "");
    var i := 0;
    while i < |excludes.values|
      invariant 0 <= i <= |excludes.values|
      invariant forall k :: 0 <= k < i ==> !Contains(value, excludes.values[k])
    {
      if Contains(value, excludes.values[i]) {
        return false;
      }
      i := i + 1;
    }
    if |includes.values| == 0 {
      return true;
    }
    i := 0;
    while i < |includes.values|
      invariant 0 <= i <= |includes.values|
      invariant forall k :: 0 <= k < i ==> !Contains(value, includes.values[k])
    {
      if Contains(value, includes.values[i]) {
        return true;
      }
      i := i + 1;
    }
    return false;
  }

  /** An exclude pattern occurring in the inputs rejects them, whatever the include list says. */
  lemma ExcludeWins(includes: seq<string>, excludes: seq<string>, values: seq<string>, k: nat)
    requires k < |excludes| && Contains(Join(values, ""), excludes[k])
    ensures !Accepts(includes, excludes, values)
  {
  }

  /** With no exclude match and no include patterns, everything is accepted. */
  lemma NoIncludeAcceptsAll(excludes: seq<string>, values: seq<string>)
    requires forall k :: 0 <= k < |excludes| ==> !Contains(Join(values, ""), excludes[k])
    ensures Accepts([], excludes, values)
  {
  }

  /** With no exclude match and some include patterns, acceptance means that one of them occurs. */
  lemma IncludeDecides(includes: seq<string>, excludes: seq<string>, values: seq<string>)
    requires |includes| > 0
    requires forall k :: 0 <= k < |excludes| ==> !Contains(Join(values, ""), excludes[k])
    ensures Accepts(includes, excludes, values) <==>
              exists k :: 0 <= k < |includes| && Contains(Join(values, ""), includes[k])
  {
  }

  /** The empty exclude pattern occurs in every input, so it rejects everything. */
  lemma EmptyExcludeRejectsAll(includes: seq<string>, excludes: seq<string>, values: seq<string>)
    requires "" in excludes
    ensures !Accepts(includes, excludes, values)
  {
    ContainsEmpty(Join(values, ""));
  }

  /** A pattern found in any single input is found in the joined inputs. */
  lemma PatternInOneInput(includes: seq<string>, excludes: seq<string>, values: seq<string>, j: nat, k: nat)
    requires j < |values| && k < |excludes| && Contains(values[j], excludes[k])
    ensures !Accepts(includes, excludes, values)
  {
    JoinContainsEach(values, "", j);
    var i :| OccursAt(values[j], excludes[k], i);
    var v := Join(values, "");
    var i0 :| OccursAt(v, values[j], i0);
    assert v[i0 + i..i0 + i + |excludes[k]|] == values[j][i..i + |excludes[k]|];
    assert OccursAt(v, excludes[k], i0 + i);
  }

  /**
   * Inputs are joined with no separator, so a pattern can match across the
   * boundary between two inputs although it occurs in neither.
   */
  lemma MatchAcrossBoundary()
    ensures !Contains("ab", "bc") && !Contains("cd", "bc")
    ensures !Accepts([], ["bc"], ["ab", "cd"])
  {
    NotOccurring("ab", "bc");
    NotOccurring("cd", "bc");
    assert Join(["ab", "cd"], "") == "abcd";
    assert OccursAt("abcd", "bc", 1);
    assert Contains(Join(["ab", "cd"], ""), ["bc"][0]);
  }

  /** Two strings of the same length that differ do not contain each other. */
  lemma NotOccurring(s: string, sub: string)
    requires |s| == |sub| && s != sub
    ensures !Contains(s, sub)
  {
  }

  /**
   * Only which patterns are listed matters, not their order or repetition:
   * lists with the same members accept the same inputs.
   */
  lemma OrderIndependent(includes: seq<string>, includes': seq<string>,
                         excludes: seq<string>, excludes': seq<string>, values: seq<string>)
    requires forall p :: p in includes <==> p in includes'
    requires forall p :: p in excludes <==> p in excludes'
    ensures Accepts(includes, excludes, values) == Accepts(includes', excludes', values)
  {
    var v := Join(values, "");
    assert |includes| == 0 <==> |includes'| == 0 by {
      if |includes| > 0 { assert includes[0] in includes'; }
      if |includes'| > 0 { assert includes'[0] in includes; }
    }
    assert (exists k :: 0 <= k < |excludes| && Contains(v, excludes[k]))
       <==> (exists k :: 0 <= k < |excludes'| && Contains(v, excludes'[k])) by {
      if k :| 0 <= k < |excludes| && Contains(v, excludes[k]) {
        assert excludes[k] in excludes';
        var k' :| 0 <= k' < |excludes'| && excludes'[k'] == excludes[k];
      }
      if k :| 0 <= k < |excludes'| && Contains(v, excludes'[k]) {
        assert excludes'[k] in excludes;
        var k' :| 0 <= k' < |excludes| && excludes[k'] == excludes'[k];
      }
    }
    assert (exists k :: 0 <= k < |includes| && Contains(v, includes[k]))
       <==> (exists k :: 0 <= k < |includes'| && Contains(v, includes'[k])) by {
      if k :| 0 <= k < |includes| && Contains(v, includes[k]) {
        assert includes[k] in includes';
        var k' :| 0 <= k' < |includes'| && includes'[k'] == includes[k];
      }
      if k :| 0 <= k < |includes'| && Contains(v, includes'[k]) {
        assert includes'[k] in includes;
        var k' :| 0 <= k' < |includes| && includes[k'] == includes'[k];
      }
    }
  }

  /** An `-exclude Network` filter hides a `Network.requestWillBeSent` record. */
  lemma ExcludeNetworkExample()
    ensures !Accepts([], ["Network"], ["Network.requestWillBeSent", "{}"])
  {
    var method' := "Network.requestWillBeSent";
    assert method'[..7] == "Network";
    assert OccursAt(method', "Network", 0);
    PatternInOneInput([], ["Network"], [method', "{}"], 0, 0);
  }

  /** An `-include Page` filter shows a `Page.loadEventFired` record. */
  lemma IncludePageExample()
    ensures Accepts(["Page"], [], ["Page.loadEventFired", "{}"])
  {
    var v := Join(["Page.loadEventFired", "{}"], "");
    assert v == "Page.loadEventFired{}";
    assert v[0..4] == "Page";
    assert OccursAt(v, "Page", 0);
    assert Contains(v, ["Page"][0]);
  }
}
