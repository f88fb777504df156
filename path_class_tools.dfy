/**
 * Static helpers on classifications (PathClassTools): tests on the name of a
 * class, the walk up to the first ancestor that is not an intensity class,
 * and the list operations on the chain of names (split, de-duplicate, sort,
 * remove), each of which builds a new class through the class factory.
 *
 * The factory (PathClassFactory.getPathClass) and the unclassified singleton
 * are not modelled here; every operation that uses them takes them as
 * parameters, so the results hold for any factory.
 */
module PathClassTools {
  import opened Optional

  /** A name of a class; Java allows it to be null. */
  type Name = Option<string>

  /** A classification: null, or a node holding a (nullable) name and its parent class. */
  datatype PathClass = Null | Node(name: Name, parent: PathClass)

  const POSITIVE: string := "Positive"
  const NEGATIVE: string := "Negative"
  const ONE_PLUS: string := "1+"
  const TWO_PLUS: string := "2+"
  const THREE_PLUS: string := "3+"

  /** The names of the built-in graded intensity classes. */
  const INTENSITY_CLASS_NAMES: set<string> := {ONE_PLUS, TWO_PLUS, THREE_PLUS}

  // ---------------------------------------------------------------------
  // The chain of parents

  /** Number of classes from this one up to and including the root. */
  function Depth(pc: PathClass): nat {
    match pc
    case Null => 0
    case Node(_, parent) => 1 + Depth(parent)
  }

  /** The ancestor k steps up: Up(pc, 0) is pc itself, Null once the chain is used up. */
  function Up(pc: PathClass, k: nat): (r: PathClass)
    ensures k <= Depth(pc) ==> Depth(r) == Depth(pc) - k
    ensures k >= Depth(pc) ==> r == Null
  {
    if k == 0 || pc == Null then pc else Up(pc.parent, k - 1)
  }

  /** One more step up the chain is the parent of the current ancestor. */
  lemma {:induction false} UpStep(pc: PathClass, k: nat)
    requires Up(pc, k) != Null
    ensures Up(pc, k + 1) == Up(pc, k).parent
  {
    if k > 0 {
      UpStep(pc.parent, k - 1);
    }
  }

  // ---------------------------------------------------------------------
  // Tests on the name of a class

  /** The class is non-null and its name equals s (Java's s.equals(getName())). */
  predicate HasName(pc: PathClass, s: string) {
    pc.Node? && pc.name == Some(s)
  }

  predicate EndsWithAsterisk(s: string) {
    |s| > 0 && s[|s| - 1] == '*'
  }

  predicate IsGradedIntensityClass(pc: PathClass) {
    pc.Node? && pc.name.Some? && pc.name.value in INTENSITY_CLASS_NAMES
  }

  predicate IsIgnoredClass(pc: PathClass) {
    pc == Null || pc.name == None || EndsWithAsterisk(pc.name.value)
  }

  predicate IsOnePlus(pc: PathClass) {
    HasName(pc, ONE_PLUS)
  }

  predicate IsTwoPlus(pc: PathClass) {
    HasName(pc, TWO_PLUS)
  }

  predicate IsThreePlus(pc: PathClass) {
    HasName(pc, THREE_PLUS)
  }

  predicate IsPositiveClass(pc: PathClass) {
    HasName(pc, POSITIVE)
  }

  predicate IsPositiveOrGradedIntensityClass(pc: PathClass) {
    pc != Null && (IsPositiveClass(pc) || IsOnePlus(pc) || IsTwoPlus(pc) || IsThreePlus(pc))
  }

  predicate IsNegativeClass(pc: PathClass) {
    HasName(pc, NEGATIVE)
  }

  /** Negative, positive, 1+, 2+ or 3+: the classes the ancestor walk skips. */
  predicate IsIntensityClass(pc: PathClass) {
    IsPositiveOrGradedIntensityClass(pc) || IsNegativeClass(pc)
  }

  /** A class is ignored exactly when it is null, has no name, or its name is some stem followed by an asterisk. */
  lemma IgnoredClassIff(pc: PathClass)
    ensures IsIgnoredClass(pc) <==> pc == Null || pc.name == None || exists stem :: pc.name.value == stem + "*"
  {
    if pc.Node? && pc.name.Some? {
      var s := pc.name.value;
      if EndsWithAsterisk(s) {
        assert s == s[..|s| - 1] + "*";
      }
      forall stem | s == stem + "*"
        ensures EndsWithAsterisk(s)
      {
        assert s[|s| - 1] == (stem + "*")[|stem|];
      }
    }
  }

  /** The positive-or-graded test is membership of the name among the four positive names. */
  lemma PositiveOrGradedIff(pc: PathClass)
    ensures IsPositiveOrGradedIntensityClass(pc) <==>
            pc.Node? && pc.name.Some? && pc.name.value in {POSITIVE, ONE_PLUS, TWO_PLUS, THREE_PLUS}
    ensures IsPositiveOrGradedIntensityClass(pc) <==> IsPositiveClass(pc) || IsGradedIntensityClass(pc)
    ensures IsGradedIntensityClass(pc) <==> IsOnePlus(pc) || IsTwoPlus(pc) || IsThreePlus(pc)
  {
  }

  /** Every name test is false on null, and null counts as ignored. */
  lemma NullClassTests()
    ensures !IsPositiveClass(Null) && !IsNegativeClass(Null) && !IsOnePlus(Null)
    ensures !IsTwoPlus(Null) && !IsThreePlus(Null) && !IsGradedIntensityClass(Null)
    ensures !IsPositiveOrGradedIntensityClass(Null) && IsIgnoredClass(Null)
  {
  }

  /** Intensity classes are never ignored, and no class is both positive and negative. */
  lemma IntensityClassesAreNotIgnored(pc: PathClass)
    ensures IsIntensityClass(pc) ==> !IsIgnoredClass(pc)
    ensures !(IsPositiveOrGradedIntensityClass(pc) && IsNegativeClass(pc))
  {
  }

  // ---------------------------------------------------------------------
  // getNonIntensityAncestorClass

  /**
   * Walks up from pathClass while the class is an intensity class.  The
   * result is the first ancestor-or-self that is not an intensity class, or
   * Null when there is none.
   */
  method GetNonIntensityAncestorClass(pathClass: PathClass) returns (r: PathClass)
    ensures r == Null || !IsIntensityClass(r)
    ensures exists k: nat :: k <= Depth(pathClass) && r == Up(pathClass, k) &&
                        forall j :: 0 <= j < k ==> IsIntensityClass(Up(pathClass, j))
  {
    r := pathClass;
    ghost var k: nat := 0;
    while r != Null && (IsPositiveOrGradedIntensityClass(r) || IsNegativeClass(r))
      invariant k <= Depth(pathClass) && r == Up(pathClass, k)
      invariant forall j :: 0 <= j < k ==> IsIntensityClass(Up(pathClass, j))
      decreases Depth(r)
    {
      UpStep(pathClass, k);
      r := r.parent;
      k := k + 1;
    }
  }

  // ---------------------------------------------------------------------
  // splitNames

  /** The names of the chain, root first, ending with the class's own name. */
  function ChainNames(pc: PathClass): (names: seq<Name>)
    ensures |names| == Depth(pc)
  {
    match pc
    case Null => []
    case Node(name, parent) => ChainNames(parent) + [name]
  }

  /** What splitNames returns: nothing for null or the unclassified class, otherwise the chain's names. */
  function NamesOf(pc: PathClass, unclassified: PathClass): seq<Name> {
    if pc == Null || pc == unclassified then [] else ChainNames(pc)
  }

  /** Position i of the names, counted from the root, is the name of the ancestor Depth - 1 - i steps up. */
  lemma {:induction false} ChainNamesAt(pc: PathClass, i: nat)
    requires i < Depth(pc)
    ensures ChainNames(pc)[i] == Up(pc, Depth(pc) - 1 - i).name
  {
    match pc
    case Node(name, parent) =>
      if i < Depth(parent) {
        ChainNamesAt(parent, i);
      }
  }

  /**
   * splitNames on a proper class gives one name per class of the chain: the
   * first is the root's, the last is the class's own, and in between each
   * position holds the name of the matching ancestor.
   */
  lemma SplitNamesShape(pc: PathClass, unclassified: PathClass)
    requires pc != Null && pc != unclassified
    ensures |NamesOf(pc, unclassified)| == Depth(pc) >= 1
    ensures NamesOf(pc, unclassified)[Depth(pc) - 1] == pc.name
    ensures Up(pc, Depth(pc) - 1).parent == Null
    ensures NamesOf(pc, unclassified)[0] == Up(pc, Depth(pc) - 1).name
    ensures forall i :: 0 <= i < Depth(pc) ==> NamesOf(pc, unclassified)[i] == Up(pc, Depth(pc) - 1 - i).name
  {
    ChainNamesAt(pc, Depth(pc) - 1);
    ChainNamesAt(pc, 0);
    UpStep(pc, Depth(pc) - 1);
    forall i | 0 <= i < Depth(pc)
      ensures NamesOf(pc, unclassified)[i] == Up(pc, Depth(pc) - 1 - i).name
    {
      ChainNamesAt(pc, i);
    }
  }

  /** The names collected walking up the chain, reversed, are the chain's names from the root. */
  lemma ReversedWalkIsChain(pc: PathClass, collected: seq<Name>, names: seq<Name>)
    requires |collected| == |names| == Depth(pc)
    requires forall i :: 0 <= i < |collected| ==> collected[i] == Up(pc, i).name
    requires forall i :: 0 <= i < |names| ==> names[i] == collected[|collected| - 1 - i]
    ensures names == ChainNames(pc)
  {
    forall i | 0 <= i < |names|
      ensures names[i] == ChainNames(pc)[i]
    {
      ChainNamesAt(pc, i);
    }
  }

  /** Collections.reverse: reverses the array in place. */
  method Reverse(a: array<Name>)
    modifies a
    ensures forall i :: 0 <= i < a.Length ==> a[i] == old(a[a.Length - 1 - i])
  {
    var lo, hi := 0, a.Length - 1;
    while lo < hi
      invariant 0 <= lo <= hi + 1 <= a.Length && hi == a.Length - 1 - lo
      invariant forall i :: 0 <= i < lo || hi < i < a.Length ==> a[i] == old(a[a.Length - 1 - i])
      invariant forall i :: lo <= i <= hi ==> a[i] == old(a[i])
    {
      a[lo], a[hi] := a[hi], a[lo];
      lo, hi := lo + 1, hi - 1;
    }
  }

  /**
   * splitNames: collects the names walking up the parent chain, then
   * reverses them so that the root comes first.
   */
  method SplitNames(pathClass: PathClass, unclassified: PathClass) returns (names: seq<Name>)
    ensures names == NamesOf(pathClass, unclassified)
  {
    if pathClass == Null || pathClass == unclassified {
      return [];
    }
    var collected: seq<Name> := [];
    var pc := pathClass;
    while pc != Null
      invariant |collected| <= Depth(pathClass) && pc == Up(pathClass, |collected|)
      invariant forall i :: 0 <= i < |collected| ==> collected[i] == Up(pathClass, i).name
      decreases Depth(pc)
    {
      UpStep(pathClass, |collected|);
      collected := collected + [pc.name];
      pc := pc.parent;
    }
    var a := new Name[|collected|](i requires 0 <= i < |collected| => collected[i]);
    Reverse(a);
    names := a[..];
    assert |collected| == Depth(pathClass) by {
      assert Depth(Up(pathClass, |collected|)) == Depth(pathClass) - |collected|;
    }
    ReversedWalkIsChain(pathClass, collected, names);
  }

  // ---------------------------------------------------------------------
  // uniqueNames

  predicate NoDuplicates(s: seq<Name>) {
    forall i, j :: 0 <= i < j < |s| ==> s[i] != s[j]
  }

  /** Index of the first occurrence of x in s. */
  function FirstIndex(s: seq<Name>, x: Name): (i: nat)
    requires x in s
    ensures i < |s| && s[i] == x
    ensures forall k :: 0 <= k < i ==> s[k] != x
  {
    var prefix := s[..|s| - 1];
    if x in prefix then FirstIndex(prefix, x) else |s| - 1
  }

  /** Stream.distinct on an ordered stream: keeps the first occurrence of each name. */
  function Distinct(s: seq<Name>): seq<Name> {
    if s == [] then []
    else
      var d := Distinct(s[..|s| - 1]);
      if s[|s| - 1] in d then d else d + [s[|s| - 1]]
  }

  /** Distinct keeps exactly the names of s, each once, ordered by where each first occurs in s. */
  lemma {:induction false} DistinctSpec(s: seq<Name>)
    ensures forall x :: x in Distinct(s) <==> x in s
    ensures NoDuplicates(Distinct(s))
    ensures forall i, j :: 0 <= i < j < |Distinct(s)| ==>
              FirstIndex(s, Distinct(s)[i]) < FirstIndex(s, Distinct(s)[j])
  {
    if s != [] {
      var prefix, last := s[..|s| - 1], s[|s| - 1];
      assert s == prefix + [last];
      DistinctSpec(prefix);
      var d := Distinct(prefix);
      forall x | x in prefix
        ensures FirstIndex(s, x) == FirstIndex(prefix, x)
      {
      }
      if last !in d {
        assert FirstIndex(s, last) == |s| - 1;
      }
    }
  }

  /**
   * uniqueNames: the list handed to the factory has no duplicate, holds
   * exactly the split names, and keeps each at its first occurrence's place.
   */
  method UniqueNames(pathClass: PathClass, unclassified: PathClass, getPathClass: seq<Name> -> PathClass)
    returns (distinct: seq<Name>, r: PathClass)
    ensures r == getPathClass(distinct)
    ensures NoDuplicates(distinct)
    ensures forall x :: x in distinct <==> x in NamesOf(pathClass, unclassified)
    ensures forall i, j :: 0 <= i < j < |distinct| ==>
              FirstIndex(NamesOf(pathClass, unclassified), distinct[i]) <
              FirstIndex(NamesOf(pathClass, unclassified), distinct[j])
  {
    var names := SplitNames(pathClass, unclassified);
    distinct := Distinct(names);
    DistinctSpec(names);
    r := getPathClass(distinct);
  }

  // ---------------------------------------------------------------------
  // sortNames

  /** The contract of a Java Comparator: cmp(x, y) <= 0 is a total preorder. */
  ghost predicate IsComparator(cmp: (Name, Name) -> int) {
    && (forall x, y :: cmp(x, y) <= 0 || cmp(y, x) <= 0)
    && (forall x, y, z :: cmp(x, y) <= 0 && cmp(y, z) <= 0 ==> cmp(x, z) <= 0)
  }

  ghost predicate SortedBy(cmp: (Name, Name) -> int, s: seq<Name>) {
    forall i, j :: 0 <= i < j < |s| ==> cmp(s[i], s[j]) <= 0
  }

  /** The comparator ties x and y: neither comes strictly before the other. */
  predicate Tied(cmp: (Name, Name) -> int, x: Name, y: Name) {
    cmp(x, y) <= 0 && cmp(y, x) <= 0
  }

  /** The names of s that the comparator ties with x, in their order in s. */
  function Ties(cmp: (Name, Name) -> int, x: Name, s: seq<Name>): seq<Name> {
    if s == [] then []
    else Ties(cmp, x, s[..|s| - 1]) + (if Tied(cmp, x, s[|s| - 1]) then [s[|s| - 1]] else [])
  }

  /** s and t hold the same names in the same order within every group of tied names. */
  ghost predicate SameTies(cmp: (Name, Name) -> int, s: seq<Name>, t: seq<Name>) {
    forall x :: Ties(cmp, x, s) == Ties(cmp, x, t)
  }

  lemma {:induction false} TiesConcat(cmp: (Name, Name) -> int, x: Name, s: seq<Name>, t: seq<Name>)
    ensures Ties(cmp, x, s + t) == Ties(cmp, x, s) + Ties(cmp, x, t)
  {
    if t == [] {
      assert s + t == s;
    } else {
      var prefix := t[..|t| - 1];
      assert (s + t)[..|s + t| - 1] == s + prefix;
      assert (s + t)[|s + t| - 1] == t[|t| - 1];
      TiesConcat(cmp, x, s, prefix);
    }
  }

  /** No name of s is tied with x. */
  lemma {:induction false} NoTies(cmp: (Name, Name) -> int, x: Name, s: seq<Name>)
    requires forall k :: 0 <= k < |s| ==> !Tied(cmp, x, s[k])
    ensures Ties(cmp, x, s) == []
  {
    if s != [] {
      NoTies(cmp, x, s[..|s| - 1]);
    }
  }

  lemma TiesSingleton(cmp: (Name, Name) -> int, x: Name, v: Name)
    ensures Ties(cmp, x, [v]) == if Tied(cmp, x, v) then [v] else []
  {
    assert [v][..0] == [];
  }

  /**
   * Moving v in front of names the comparator puts strictly after it keeps
   * the order of the names tied with x: if v is tied with x, none of the
   * names it passes is.
   */
  lemma MovePastKeepsTies(cmp: (Name, Name) -> int, x: Name, v: Name, mid: seq<Name>)
    requires IsComparator(cmp)
    requires forall k :: 0 <= k < |mid| ==> cmp(mid[k], v) > 0
    ensures Ties(cmp, x, [v] + mid) == Ties(cmp, x, mid + [v])
  {
    TiesConcat(cmp, x, [v], mid);
    TiesConcat(cmp, x, mid, [v]);
    TiesSingleton(cmp, x, v);
    if Tied(cmp, x, v) {
      NoTies(cmp, x, mid);
    }
  }

  /** Replacing a middle part by one with the same ties keeps the ties of the whole. */
  lemma TiesAround(cmp: (Name, Name) -> int, x: Name, pre: seq<Name>, u: seq<Name>, w: seq<Name>, post: seq<Name>)
    requires Ties(cmp, x, u) == Ties(cmp, x, w)
    ensures Ties(cmp, x, pre + u + post) == Ties(cmp, x, pre + w + post)
  {
    TiesConcat(cmp, x, pre + u, post);
    TiesConcat(cmp, x, pre, u);
    TiesConcat(cmp, x, pre + w, post);
    TiesConcat(cmp, x, pre, w);
  }

  /**
   * t is s with s[i] moved down to position j, past names that the
   * comparator puts strictly after it.
   */
  ghost predicate MovedDown(cmp: (Name, Name) -> int, s: seq<Name>, t: seq<Name>, i: nat, j: nat)
    requires j <= i < |s| == |t|
  {
    && (forall k :: 0 <= k < j ==> t[k] == s[k])
    && t[j] == s[i]
    && (forall l :: j < l <= i ==> t[l] == s[l - 1])
    && (forall k :: i < k < |s| ==> t[k] == s[k])
    && (forall l :: j <= l < i ==> cmp(s[l], s[i]) > 0)
  }

  /** MovePastKeepsTies for the insertion of s[i] at position j, for every name. */
  lemma MoveDownKeepsTies(cmp: (Name, Name) -> int, s: seq<Name>, t: seq<Name>, i: nat, j: nat)
    requires IsComparator(cmp)
    requires j <= i < |s| == |t| && MovedDown(cmp, s, t, i, j)
    ensures SameTies(cmp, t, s)
  {
    var pre, mid, post := s[..j], s[j..i], s[i + 1..];
    assert s == pre + (mid + [s[i]]) + post;
    assert t == pre + ([s[i]] + mid) + post;
    assert forall k :: 0 <= k < |mid| ==> cmp(mid[k], s[i]) > 0 by {
      assert forall k :: 0 <= k < |mid| ==> mid[k] == s[j + k];
    }
    forall x
      ensures Ties(cmp, x, t) == Ties(cmp, x, s)
    {
      MovePastKeepsTies(cmp, x, s[i], mid);
      TiesAround(cmp, x, pre, [s[i]] + mid, mid + [s[i]], post);
    }
  }

  /** Exchanges two elements of the array. */
  method Swap(a: array<Name>, i: nat, j: nat)
    requires i < a.Length && j < a.Length
    modifies a
    ensures a[i] == old(a[j]) && a[j] == old(a[i])
    ensures forall k :: 0 <= k < a.Length && k != i && k != j ==> a[k] == old(a[k])
    ensures a[..] == old(a[..])[i := old(a[j])][j := old(a[i])]
    ensures multiset(a[..]) == multiset(old(a[..]))
  {
    a[i], a[j] := a[j], a[i];
  }

  /** The names the insertion did not move keep the order of the sorted prefix. */
  lemma PassedOverSorted(cmp: (Name, Name) -> int, start: seq<Name>, t: seq<Name>, i: nat, j: nat)
    requires j <= i < |start| == |t| && SortedBy(cmp, start[..i]) && MovedDown(cmp, start, t, i, j)
    ensures forall k, l :: 0 <= k < l <= i && k != j && l != j ==> cmp(t[k], t[l]) <= 0
  {
    forall k, l | 0 <= k < l <= i && k != j && l != j
      ensures cmp(t[k], t[l]) <= 0
    {
      var k', l' := if k < j then k else k - 1, if l < j then l else l - 1;
      assert t[k] == start[..i][k'] && t[l] == start[..i][l'];
    }
  }

  /** The inserted name comes before every name it passed. */
  lemma InsertedBeforePassed(cmp: (Name, Name) -> int, start: seq<Name>, t: seq<Name>, i: nat, j: nat)
    requires forall x, y :: cmp(x, y) <= 0 || cmp(y, x) <= 0
    requires j <= i < |start| == |t| && MovedDown(cmp, start, t, i, j)
    ensures forall l :: j < l <= i ==> cmp(t[j], t[l]) <= 0
  {
    forall l | j < l <= i
      ensures cmp(t[j], t[l]) <= 0
    {
      assert cmp(start[l - 1], start[i]) > 0;
    }
  }

  /** Once the inserted name does not come strictly after its lower neighbour, it comes after every name below it. */
  lemma InsertedAfterBelow(cmp: (Name, Name) -> int, start: seq<Name>, t: seq<Name>, i: nat, j: nat)
    requires IsComparator(cmp)
    requires 0 < j <= i < |start| == |t| && SortedBy(cmp, start[..i]) && MovedDown(cmp, start, t, i, j)
    requires cmp(t[j - 1], t[j]) <= 0
    ensures forall k :: 0 <= k < j ==> cmp(t[k], t[j]) <= 0
  {
    forall k | 0 <= k < j - 1
      ensures cmp(t[k], t[j]) <= 0
    {
      assert t[k] == start[..i][k] && t[j - 1] == start[..i][j - 1];
    }
  }

  /**
   * Once the inserted name no longer comes strictly after its lower
   * neighbour, the first i + 1 names are sorted.
   */
  lemma InsertedSorted(cmp: (Name, Name) -> int, start: seq<Name>, t: seq<Name>, i: nat, j: nat)
    requires IsComparator(cmp)
    requires j <= i < |start| == |t| && SortedBy(cmp, start[..i]) && MovedDown(cmp, start, t, i, j)
    requires j == 0 || cmp(t[j - 1], t[j]) <= 0
    ensures SortedBy(cmp, t[..i + 1])
  {
    PassedOverSorted(cmp, start, t, i, j);
    InsertedBeforePassed(cmp, start, t, i, j);
    if j > 0 {
      InsertedAfterBelow(cmp, start, t, i, j);
    }
  }

  /** Exchanging s[j - 1] and s[j] when s[j - 1] comes strictly after s[j] moves the inserted name one place further down. */
  lemma MovedDownStep(cmp: (Name, Name) -> int, start: seq<Name>, s: seq<Name>, i: nat, j: nat)
    requires 0 < j <= i < |s| == |start| && cmp(s[j - 1], s[j]) > 0
    requires MovedDown(cmp, start, s, i, j)
    ensures MovedDown(cmp, start, s[j - 1 := s[j]][j := s[j - 1]], i, j - 1)
  {
  }

  /** One step of the insertion: a[j] moves one place down, past a neighbour that the comparator puts after it. */
  method SwapDown(a: array<Name>, i: nat, j: nat, cmp: (Name, Name) -> int, ghost start: seq<Name>)
    requires 0 < j <= i < a.Length == |start| && cmp(a[j - 1], a[j]) > 0
    requires MovedDown(cmp, start, a[..], i, j)
    modifies a
    ensures a[..] == old(a[..])[j - 1 := old(a[j])][j := old(a[j - 1])]
    ensures MovedDown(cmp, start, a[..], i, j - 1)
    ensures multiset(a[..]) == multiset(old(a[..]))
  {
    MovedDownStep(cmp, start, a[..], i, j);
    Swap(a, j - 1, j);
  }

  /**
   * The loop of InsertDown: a[i] moves down past the names the comparator
   * puts strictly after it; j is where it stops.
   */
  method MoveDown(a: array<Name>, i: nat, cmp: (Name, Name) -> int) returns (j: nat)
    requires i < a.Length
    modifies a
    ensures j <= i && (j == 0 || cmp(a[j - 1], a[j]) <= 0)
    ensures MovedDown(cmp, old(a[..]), a[..], i, j)
    ensures multiset(a[..]) == multiset(old(a[..]))
  {
    ghost var start := a[..];
    j := i;
    while j > 0 && cmp(a[j - 1], a[j]) > 0
      invariant 0 <= j <= i
      invariant MovedDown(cmp, start, a[..], i, j)
      invariant multiset(a[..]) == multiset(start)
    {
      SwapDown(a, i, j, cmp, start);
      j := j - 1;
    }
  }

  /** Moves a[i] down into the sorted prefix a[..i], so that a[..i + 1] is sorted. */
  method InsertDown(a: array<Name>, i: nat, cmp: (Name, Name) -> int)
    requires IsComparator(cmp)
    requires i < a.Length
    requires SortedBy(cmp, a[..i])
    modifies a
    ensures SortedBy(cmp, a[..i + 1])
    ensures a[i + 1..] == old(a[i + 1..])
    ensures multiset(a[..]) == multiset(old(a[..]))
    ensures SameTies(cmp, a[..], old(a[..]))
  {
    ghost var start := a[..];
    var j := MoveDown(a, i, cmp);
    InsertedSorted(cmp, start, a[..], i, j);
    MoveDownKeepsTies(cmp, start, a[..], i, j);
    assert a[i + 1..] == start[i + 1..];
  }

  /** List.sort: a stable insertion sort of the array in place. */
  method SortInPlace(a: array<Name>, cmp: (Name, Name) -> int)
    requires IsComparator(cmp)
    modifies a
    ensures SortedBy(cmp, a[..])
    ensures multiset(a[..]) == multiset(old(a[..]))
    ensures SameTies(cmp, a[..], old(a[..]))
  {
    var i := 0;
    while i < a.Length
      invariant 0 <= i <= a.Length
      invariant SortedBy(cmp, a[..i])
      invariant multiset(a[..]) == multiset(old(a[..]))
      invariant SameTies(cmp, a[..], old(a[..]))
    {
      InsertDown(a, i, cmp);
      i := i + 1;
    }
    assert a[..a.Length] == a[..];
  }

  /**
   * sortNames with a comparator: the list handed to the factory is a
   * permutation of the split names, ordered by the comparator, and names
   * the comparator ties keep their relative order (List.sort is stable).
   */
  method SortNames(pathClass: PathClass, unclassified: PathClass, cmp: (Name, Name) -> int,
                   getPathClass: seq<Name> -> PathClass)
    returns (sorted: seq<Name>, r: PathClass)
    requires IsComparator(cmp)
    ensures r == getPathClass(sorted)
    ensures multiset(sorted) == multiset(NamesOf(pathClass, unclassified))
    ensures SortedBy(cmp, sorted)
    ensures forall x :: Ties(cmp, x, sorted) == Ties(cmp, x, NamesOf(pathClass, unclassified))
  {
    var names := SplitNames(pathClass, unclassified);
    var a := new Name[|names|](i requires 0 <= i < |names| => names[i]);
    assert a[..] == names;
    SortInPlace(a, cmp);
    sorted := a[..];
    r := getPathClass(sorted);
  }

  /** String.compareTo: the difference of the first differing characters, else of the lengths. */
  function CompareStrings(a: string, b: string): int {
    if a == [] || b == [] then |a| - |b|
    else if a[0] != b[0] then a[0] as int - b[0] as int
    else CompareStrings(a[1..], b[1..])
  }

  lemma {:induction false} CompareStringsAntisymmetric(a: string, b: string)
    ensures CompareStrings(b, a) == -CompareStrings(a, b)
  {
    if a != [] && b != [] && a[0] == b[0] {
      CompareStringsAntisymmetric(a[1..], b[1..]);
    }
  }

  lemma {:induction false} CompareStringsTransitive(a: string, b: string, c: string)
    requires CompareStrings(a, b) <= 0 && CompareStrings(b, c) <= 0
    ensures CompareStrings(a, c) <= 0
  {
    if a != [] && b != [] && c != [] && a[0] == b[0] && b[0] == c[0] {
      CompareStringsTransitive(a[1..], b[1..], c[1..]);
    }
  }

  /**
   * Comparator.naturalOrder on names.  Java throws on a null name; here
   * null sorts first, a value SortNamesNatural never relies on.
   */
  function NaturalOrder(x: Name, y: Name): int {
    match (x, y)
    case (Some(a), Some(b)) => CompareStrings(a, b)
    case (None, None) => 0
    case (None, Some(_)) => -1
    case (Some(_), None) => 1
  }

  lemma NaturalOrderIsComparator()
    ensures IsComparator(NaturalOrder)
  {
    forall x, y
      ensures NaturalOrder(x, y) <= 0 || NaturalOrder(y, x) <= 0
    {
      if x.Some? && y.Some? {
        CompareStringsAntisymmetric(x.value, y.value);
      }
    }
    forall x, y, z | NaturalOrder(x, y) <= 0 && NaturalOrder(y, z) <= 0
      ensures NaturalOrder(x, z) <= 0
    {
      if x.Some? && y.Some? && z.Some? {
        CompareStringsTransitive(x.value, y.value, z.value);
      }
    }
  }

  /**
   * sortNames(pathClass): sorting by natural order.  With two or more names
   * and a null among them, Java's sort compares the null and throws a
   * NullPointerException (result None); otherwise the list handed to the
   * factory is a permutation of the split names in natural order.
   */
  method SortNamesNatural(pathClass: PathClass, unclassified: PathClass, getPathClass: seq<Name> -> PathClass)
    returns (sorted: seq<Name>, r: Option<PathClass>)
    ensures var names := NamesOf(pathClass, unclassified);
            r == None <==> |names| >= 2 && None in names
    ensures r.Some? ==> r.value == getPathClass(sorted)
    ensures r.Some? ==> multiset(sorted) == multiset(NamesOf(pathClass, unclassified))
    ensures r.Some? ==> SortedBy(NaturalOrder, sorted)
    ensures r.Some? ==> forall x :: Ties(NaturalOrder, x, sorted) == Ties(NaturalOrder, x, NamesOf(pathClass, unclassified))
  {
    var names := SplitNames(pathClass, unclassified);
    if |names| >= 2 && None in names {
      return names, None;
    }
    NaturalOrderIsComparator();
    var pc;
    sorted, pc := SortNames(pathClass, unclassified, NaturalOrder, getPathClass);
    r := Some(pc);
  }

  // ---------------------------------------------------------------------
  // removeNames

  /** The names of s that are not in rm, in their original order. */
  function Without(s: seq<Name>, rm: set<Name>): seq<Name> {
    if s == [] then []
    else Without(s[..|s| - 1], rm) + (if s[|s| - 1] in rm then [] else [s[|s| - 1]])
  }

  predicate NoneRemoved(s: seq<Name>, rm: set<Name>) {
    forall i :: 0 <= i < |s| ==> s[i] !in rm
  }

  /** Without drops every occurrence of the removed names and keeps every occurrence of the others. */
  lemma {:induction false} WithoutCounts(s: seq<Name>, rm: set<Name>)
    ensures forall x :: multiset(Without(s, rm))[x] == if x in rm then 0 else multiset(s)[x]
  {
    if s != [] {
      var prefix, last := s[..|s| - 1], s[|s| - 1];
      assert s == prefix + [last];
      WithoutCounts(prefix, rm);
    }
  }

  /** Without never lengthens the list; it shortens it exactly when some name is to be removed. */
  lemma {:induction false} WithoutLength(s: seq<Name>, rm: set<Name>)
    ensures |Without(s, rm)| <= |s|
    ensures NoneRemoved(s, rm) ==> Without(s, rm) == s
    ensures !NoneRemoved(s, rm) ==> |Without(s, rm)| < |s|
  {
    if s != [] {
      var prefix, last := s[..|s| - 1], s[|s| - 1];
      assert s == prefix + [last];
      WithoutLength(prefix, rm);
      if !NoneRemoved(s, rm) && last !in rm {
        var i :| 0 <= i < |s| && s[i] in rm;
        assert prefix[i] in rm;
      }
    }
  }

  /** Without changes the list exactly when some name of it is to be removed. */
  lemma WithoutChangesIff(s: seq<Name>, rm: set<Name>)
    ensures NoneRemoved(s, rm) <==> Without(s, rm) == s
    ensures NoneRemoved(s, rm) <==> |Without(s, rm)| == |s|
  {
    WithoutLength(s, rm);
  }

  /** Without works element by element, so it keeps the order of the names it keeps. */
  lemma {:induction false} WithoutConcat(s: seq<Name>, t: seq<Name>, rm: set<Name>)
    ensures Without(s + t, rm) == Without(s, rm) + Without(t, rm)
  {
    if t == [] {
      assert s + t == s;
    } else {
      var prefix, last := t[..|t| - 1], t[|t| - 1];
      assert (s + t)[..|s + t| - 1] == s + prefix;
      assert (s + t)[|s + t| - 1] == last;
      WithoutConcat(s, prefix, rm);
    }
  }

  /**
   * ArrayList.removeAll: compacts the kept names to the front of the array
   * in place; size is the new length of the list and modified says whether
   * anything was removed.
   */
  method RemoveAll(a: array<Name>, rm: set<Name>) returns (size: nat, modified: bool)
    modifies a
    ensures size <= a.Length
    ensures a[..size] == Without(old(a[..]), rm)
    ensures modified <==> size < a.Length
  {
    ghost var s := a[..];
    var w, i := 0, 0;
    while i < a.Length
      invariant 0 <= w <= i <= a.Length
      invariant a[..w] == Without(s[..i], rm)
      invariant a[i..] == s[i..]
    {
      assert s[..i + 1][..i] == s[..i];
      var x := a[i];
      assert x == s[i] && a[i + 1..] == s[i + 1..];
      ghost var kept := a[..w];
      if x !in rm {
        a[w] := x;
        assert a[..w + 1] == kept + [x];
        w := w + 1;
      }
      assert a[i + 1..] == s[i + 1..];
      i := i + 1;
    }
    assert s[..a.Length] == s;
    size, modified := w, w < a.Length;
  }

  /**
   * removeNames: the very same class when none of its split names is to be
   * removed; otherwise the factory's class for the split names with every
   * removed name dropped.
   */
  method RemoveNames(pathClass: PathClass, unclassified: PathClass, namesToRemove: set<Name>,
                     getPathClass: seq<Name> -> PathClass)
    returns (r: PathClass)
    ensures NoneRemoved(NamesOf(pathClass, unclassified), namesToRemove) ==> r == pathClass
    ensures !NoneRemoved(NamesOf(pathClass, unclassified), namesToRemove) ==>
              r == getPathClass(Without(NamesOf(pathClass, unclassified), namesToRemove))
  {
    var names := SplitNames(pathClass, unclassified);
    var a := new Name[|names|](i requires 0 <= i < |names| => names[i]);
    assert a[..] == names;
    var size, modified := RemoveAll(a, namesToRemove);
    WithoutChangesIff(names, namesToRemove);
    if modified {
      r := getPathClass(a[..size]);
    } else {
      r := pathClass;
    }
  }

  /** removeNames(pathClass, String...): the same, with the names given as an array. */
  method RemoveNamesArray(pathClass: PathClass, unclassified: PathClass, namesToRemove: seq<Name>,
                          getPathClass: seq<Name> -> PathClass)
    returns (r: PathClass)
    ensures var rm := set x | x in namesToRemove;
            NoneRemoved(NamesOf(pathClass, unclassified), rm) ==> r == pathClass
    ensures var rm := set x | x in namesToRemove;
            !NoneRemoved(NamesOf(pathClass, unclassified), rm) ==>
              r == getPathClass(Without(NamesOf(pathClass, unclassified), rm))
  {
    r := RemoveNames(pathClass, unclassified, (set x | x in namesToRemove), getPathClass);
  }
}
