/** Tool lists are stored as one string whose entries are separated by a
    comma and a space; the program splits them with `split(", ")` and compares
    the resulting sets (main.py, create_roster). */
module Tools {

  const Separator: string := ", "

  /** True when the separator ", " starts at position i of s. */
  predicate SeparatorAt(s: string, i: nat)
  {
    i + 2 <= |s| && s[i] == ',' && s[i + 1] == ' '
  }

  /** A string in which the separator never occurs. */
  predicate NoSeparator(p: string)
  {
    forall i: nat | i < |p| :: !SeparatorAt(p, i)
  }

  /** Splitting on every occurrence of ", ", scanning from the left, as
      Python's `str.split(", ")` does: the empty string gives one empty part,
      and a separator at either end gives an empty part there. */
  function Split(s: string): (parts: seq<string>)
    ensures |parts| >= 1
    decreases |s|
  {
    if |s| == 0 then [""]
    else if SeparatorAt(s, 0) then [""] + Split(s[2..])
    else
      var rest := Split(s[1..]);
      [[s[0]] + rest[0]] + rest[1..]
  }

  /** Joining parts with the separator, the inverse of Split. */
  function Join(parts: seq<string>): (joined: string)
    requires |parts| >= 1
    decreases |parts|
  {
    if |parts| == 1 then parts[0] else parts[0] + Separator + Join(parts[1..])
  }

  /** The set of tools a tool list names, `set(s.split(", "))`. It is never
      empty (an empty list names the empty tool), and no tool name in it
      contains the separator. */
  function ToolSet(s: string): (tools: set<string>)
    ensures forall t :: t in tools <==> t in Split(s)
    ensures tools != {}
    ensures forall t | t in tools :: NoSeparator(t)
  {
    SplitPartsHaveNoSeparator(s);
    var tools := set p | p in Split(s);
    assert Split(s)[0] in tools;
    tools
  }

  /** One tool list names a subset of another's tools exactly when every
      part of the first split occurs in the second. */
  lemma ToolSetSubset(a: string, b: string)
    ensures ToolSet(a) <= ToolSet(b) ==> forall t | t in Split(a) :: t in Split(b)
    ensures (forall t | t in Split(a) :: t in Split(b)) ==> ToolSet(a) <= ToolSet(b)
  {
    var need, have := ToolSet(a), ToolSet(b);
    if need <= have {
      forall t | t in Split(a) ensures t in Split(b) {
        assert t in need;
      }
    }
    if forall t | t in Split(a) :: t in Split(b) {
      forall t | t in need ensures t in have {
        assert t in Split(a);
      }
    }
  }

  /** Joining the parts of a split gives back the original string. */
  lemma {:induction false} JoinSplit(s: string)
    ensures Join(Split(s)) == s
    decreases |s|
  {
    if |s| == 0 {
    } else if SeparatorAt(s, 0) {
      JoinSplit(s[2..]);
      assert s == Separator + s[2..];
    } else {
      JoinSplit(s[1..]);
      var rest := Split(s[1..]);
      if |rest| > 1 {
        assert rest == [rest[0]] + rest[1..];
        assert Join(rest) == rest[0] + Separator + Join(rest[1..]);
        assert Join(Split(s)) == [s[0]] + rest[0] + Separator + Join(rest[1..]);
      }
      assert s == [s[0]] + s[1..];
    }
  }

  /** No part produced by Split contains the separator. */
  lemma {:induction false} SplitPartsHaveNoSeparator(s: string)
    ensures forall k | 0 <= k < |Split(s)| :: NoSeparator(Split(s)[k])
    decreases |s|
  {
    if |s| == 0 {
    } else if SeparatorAt(s, 0) {
      SplitPartsHaveNoSeparator(s[2..]);
      var r := Split(s[2..]);
      forall k | 0 <= k < |Split(s)| ensures NoSeparator(Split(s)[k]) {
        if k > 0 { assert Split(s)[k] == r[k - 1]; }
      }
    } else {
      SplitPartsHaveNoSeparator(s[1..]);
      var rest := Split(s[1..]);
      var first := [s[0]] + rest[0];
      assert NoSeparator(rest[0]);
      forall i: nat | i < |first| ensures !SeparatorAt(first, i) {
        if i == 0 {
          if |rest[0]| == 0 {
            assert |first| == 1;
          }
        } else {
          assert !SeparatorAt(rest[0], i - 1);
        }
      }
      forall k | 0 <= k < |Split(s)| ensures NoSeparator(Split(s)[k]) {
        if k > 0 { assert Split(s)[k] == rest[k]; }
      }
    }
  }

  /** A string without the separator splits into itself alone. */
  lemma {:induction false} SplitOfPart(p: string)
    requires NoSeparator(p)
    ensures Split(p) == [p]
    decreases |p|
  {
    if |p| > 0 {
      assert !SeparatorAt(p, 0);
      var tail := p[1..];
      forall i: nat | i < |tail| ensures !SeparatorAt(tail, i) {
        assert !SeparatorAt(p, i + 1);
      }
      SplitOfPart(tail);
      assert p == [p[0]] + tail;
    }
  }

  /** Splitting stops at the first separator when the text before it has none. */
  lemma {:induction false} SplitAcross(p: string, r: string)
    requires NoSeparator(p)
    ensures Split(p + Separator + r) == [p] + Split(r)
    decreases |p|
  {
    var s := p + Separator + r;
    if |p| == 0 {
      assert s == Separator + r;
      assert SeparatorAt(s, 0);
      assert s[2..] == r;
    } else {
      var tail := p[1..];
      forall i: nat | i < |tail| ensures !SeparatorAt(tail, i) {
        assert !SeparatorAt(p, i + 1);
      }
      if |tail| > 0 {
        assert !SeparatorAt(p, 0);
        assert s[0] == p[0] && s[1] == p[1];
      } else {
        assert s[1] == ',';
      }
      assert !SeparatorAt(s, 0);
      assert s[1..] == tail + Separator + r;
      SplitAcross(tail, r);
      assert p == [s[0]] + tail;
    }
  }

  /** Splitting a join gives back the parts, provided no part contains the separator. */
  lemma {:induction false} SplitJoin(parts: seq<string>)
    requires |parts| >= 1
    requires forall k | 0 <= k < |parts| :: NoSeparator(parts[k])
    ensures Split(Join(parts)) == parts
    decreases |parts|
  {
    if |parts| == 1 {
      SplitOfPart(parts[0]);
    } else {
      SplitJoin(parts[1..]);
      SplitAcross(parts[0], Join(parts[1..]));
      assert parts == [parts[0]] + parts[1..];
    }
  }
}
