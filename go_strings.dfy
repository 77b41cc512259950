/** The parts of Go's `strings` package the proxy relies on. */
module GoStrings {

  /** `strings.HasPrefix(s, prefix)`. */
  predicate HasPrefix(s: string, prefix: string) {
    |prefix| <= |s| && s[..|prefix|] == prefix
  }

  /** `sub` occurs in `s` at offset `i`. */
  ghost predicate OccursAt(s: string, sub: string, i: int) {
    0 <= i && i + |sub| <= |s| && s[i..i + |sub|] == sub
  }

  /** `strings.Contains(s, sub)`: plain, case-sensitive substring search. */
  function Contains(s: string, sub: string): (r: bool)
    ensures r <==> exists i :: OccursAt(s, sub, i)
    decreases |s|
  {
    if HasPrefix(s, sub) then
      assert OccursAt(s, sub, 0);
      true
    else if |s| == 0 then
      assert forall i :: !OccursAt(s, sub, i);
      false
    else
      OccursShift(s, sub);
      Contains(s[1..], sub)
  }

  /** Past a non-matching first position, occurrences in `s` are those in `s[1..]`, shifted by one. */
  lemma OccursShift(s: string, sub: string)
    requires |s| > 0 && !HasPrefix(s, sub)
    ensures (exists i :: OccursAt(s, sub, i)) <==> (exists j :: OccursAt(s[1..], sub, j))
  {
    if i :| OccursAt(s, sub, i) {
      assert i != 0;
      assert s[1..][i - 1..i - 1 + |sub|] == s[i..i + |sub|];
      assert OccursAt(s[1..], sub, i - 1);
    }
    if j :| OccursAt(s[1..], sub, j) {
      assert s[j + 1..j + 1 + |sub|] == s[1..][j..j + |sub|];
      assert OccursAt(s, sub, j + 1);
    }
  }

  /** Every string contains the empty string. */
  lemma ContainsEmpty(s: string)
    ensures Contains(s, "")
  {
  }

  /** A string occurring inside `s`, or inside a part of it, occurs in `s`. */
  lemma ContainsInfix(a: string, b: string, c: string, sub: string)
    requires Contains(b, sub)
    ensures Contains(a + b + c, sub)
  {
    var i :| OccursAt(b, sub, i);
    assert (a + b + c)[|a| + i..|a| + i + |sub|] == b[i..i + |sub|];
    assert OccursAt(a + b + c, sub, |a| + i);
  }

  /** `strings.Join(values, sep)`. */
  function Join(values: seq<string>, sep: string): (joined: string)
    decreases |values|
  {
    if |values| == 0 then ""
    else if |values| == 1 then values[0]
    else values[0] + sep + Join(values[1..], sep)
  }

  /** Appending a value to a non-empty list extends its join by the separator and the value. */
  lemma {:induction false} JoinSnoc(values: seq<string>, x: string, sep: string)
    requires |values| > 0
    ensures Join(values + [x], sep) == Join(values, sep) + sep + x
    decreases |values|
  {
    if |values| == 1 {
      assert values + [x] == [values[0], x];
      assert [values[0], x][1..] == [x];
    } else {
      assert (values + [x])[1..] == values[1..] + [x];
      JoinSnoc(values[1..], x, sep);
    }
  }

  /** Every element of a list occurs in its join. */
  lemma {:induction false} JoinContainsEach(values: seq<string>, sep: string, k: nat)
    requires k < |values|
    ensures Contains(Join(values, sep), values[k])
    decreases |values|
  {
    assert OccursAt(values[k], values[k], 0);
    if |values| == 1 {
    } else if k == 0 {
      ContainsInfix("", values[0], sep + Join(values[1..], sep), values[0]);
      assert "" + values[0] + (sep + Join(values[1..], sep)) == Join(values, sep);
    } else {
      JoinContainsEach(values[1..], sep, k - 1);
      ContainsInfix(values[0] + sep, Join(values[1..], sep), "", values[k]);
      assert values[0] + sep + Join(values[1..], sep) + "" == Join(values, sep);
    }
  }

  /** `strings.Repeat(string(c), count)`; Go panics on a negative count, so `count` is a `nat`. */
  function Repeat(c: char, count: nat): (r: string)
    ensures |r| == count
    ensures forall i :: 0 <= i < count ==> r[i] == c
  {
    seq(count, _ => c)
  }
}
