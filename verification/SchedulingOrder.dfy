/** What decides a schedule: the hash of a test, and the set of groups whatever their order. */
module SchedulingOrder {
  import opened Wrappers
  import opened Permutations
  import opened WptSharding

  // ---- the hash -------------------------------------------------------------

  lemma FirstRound()
    ensures HashRound(0x811c_9dc5, 'a') == 0xe40c_292c
  {
  }

  /** A round takes in the whole 16-bit code unit, not only its low byte. */
  lemma RoundTakesCodeUnit()
    ensures HashRound(0x811c_9dc5, '\U{263A}') == 0x3f3b_f26d
  {
  }

  /** The published 32-bit FNV-1a value of "a", and how a longer text goes on. */
  lemma HashIsFnv1a(s: string, c: char)
    ensures Hash("a") == 0xe40c_292c
    ensures Hash(s + [c]) == HashRound(Hash(s), c)
  {
    FirstRound();
    assert "a"[..0] == "" && "a"[0] == 'a';
    assert Hash("") == 0x811c_9dc5;
    assert (s + [c])[..|s|] == s;
  }

  /** The shard of a test: the hash of file, NUL and name, modulo the count. */
  lemma ShardIsTheRemainder(file: string, name: string, m: nat)
    requires m >= 1
    ensures ShardOf(file, name, m) == Hash(file + "\0" + name) as int % m
  {
    assert Identity(file, name) == file + "\0" + name;
  }

  // ---- ties -----------------------------------------------------------------

  ghost predicate LinearOrder(keyBefore: (string, string) -> bool) {
    && (forall a, b :: keyBefore(a, b) ==> !keyBefore(b, a))
    && (forall a, b :: a != b ==> keyBefore(a, b) || keyBefore(b, a))
    && (forall a, b, c :: keyBefore(a, b) && keyBefore(b, c) ==> keyBefore(a, c))
  }

  /** Heavier groups first, and groups of one weight by their keys. */
  ghost predicate InOrder(s: seq<Group>, keyBefore: (string, string) -> bool) {
    forall i, j :: 0 <= i < j < |s| ==>
      s[i].weight > s[j].weight || (s[i].weight == s[j].weight && keyBefore(s[i].key, s[j].key))
  }

  lemma {:induction false} InsertMember(s: seq<Group>, x: Group, keyBefore: (string, string) -> bool, i: nat)
    requires i <= |s|
    ensures Insert(s, x, keyBefore)[i] == x || Insert(s, x, keyBefore)[i] in s
  {
    var r := Insert(s, x, keyBefore);
    assert r[i] in multiset(r);
    assert r[i] in multiset(s) || r[i] == x;
  }

  lemma InOrderMore(s: seq<Group>, x: Group, keyBefore: (string, string) -> bool)
    requires InOrder(s, keyBefore) && forall i :: 0 <= i < |s| ==> Before(s[i], x, keyBefore)
    ensures InOrder(s + [x], keyBefore)
  {
  }

  lemma {:induction false} InsertInOrder(s: seq<Group>, x: Group, keyBefore: (string, string) -> bool)
    requires LinearOrder(keyBefore) && InOrder(s, keyBefore) && x.key !in Keys(s)
    ensures InOrder(Insert(s, x, keyBefore), keyBefore)
  {
    if s != [] {
      var n := |s| - 1;
      var last, r := s[n], Insert(s[..n], x, keyBefore);
      if Before(x, last, keyBefore) {
        assert Keys(s[..n]) <= Keys(s);
        InsertInOrder(s[..n], x, keyBefore);
        forall i | 0 <= i < |r| ensures Before(r[i], last, keyBefore) {
          InsertMember(s[..n], x, keyBefore, i);
        }
        InOrderMore(r, last, keyBefore);
      } else {
        assert last.key in Keys(s);
        assert Before(last, x, keyBefore);
        forall i | 0 <= i < |s| ensures Before(s[i], x, keyBefore) {
          BeforeTransitive(s, i, x, keyBefore);
        }
        InOrderMore(s, x, keyBefore);
      }
    }
  }

  lemma BeforeTransitive(s: seq<Group>, i: nat, x: Group, keyBefore: (string, string) -> bool)
    requires LinearOrder(keyBefore) && InOrder(s, keyBefore) && i < |s| && Before(s[|s| - 1], x, keyBefore)
    ensures Before(s[i], x, keyBefore)
  {
  }

  lemma {:induction false} SortedInOrder(s: seq<Group>, keyBefore: (string, string) -> bool)
    requires LinearOrder(keyBefore) && DistinctKeys(s)
    ensures InOrder(Sorted(s, keyBefore), keyBefore)
  {
    if s != [] {
      var n := |s| - 1;
      SortedInOrder(s[..n], keyBefore);
      LastKeyIsNew(s);
      SortedHasKeys(s[..n], keyBefore);
      InsertInOrder(Sorted(s[..n], keyBefore), s[n], keyBefore);
    }
  }

  lemma SortedHasKeys(s: seq<Group>, keyBefore: (string, string) -> bool)
    ensures Keys(Sorted(s, keyBefore)) == Keys(s)
  {
    var r := Sorted(s, keyBefore);
    assert forall g :: g in r <==> g in multiset(r);
    assert forall g :: g in s <==> g in multiset(s);
  }

  lemma WithoutLast(s: seq<Group>)
    requires s != []
    ensures multiset(s[..|s| - 1]) == multiset(s) - multiset{s[|s| - 1]}
  {
    assert s == s[..|s| - 1] + [s[|s| - 1]];
  }

  lemma SameLength(s: seq<Group>, t: seq<Group>)
    requires multiset(s) == multiset(t)
    ensures |s| == |t|
  {
    assert |multiset(s)| == |s| && |multiset(t)| == |t|;
  }

  lemma PrefixInOrder(s: seq<Group>, keyBefore: (string, string) -> bool)
    requires s != [] && InOrder(s, keyBefore)
    ensures InOrder(s[..|s| - 1], keyBefore)
  {
  }

  lemma RestAreSame(s: seq<Group>, t: seq<Group>)
    requires s != [] && t != [] && multiset(s) == multiset(t) && s[|s| - 1] == t[|t| - 1]
    ensures multiset(s[..|s| - 1]) == multiset(t[..|t| - 1])
  {
    WithoutLast(s);
    WithoutLast(t);
  }

  lemma SameEnds(s: seq<Group>, t: seq<Group>)
    requires s != [] && |s| == |t| && s[..|s| - 1] == t[..|t| - 1] && s[|s| - 1] == t[|t| - 1]
    ensures s == t
  {
    assert s == s[..|s| - 1] + [s[|s| - 1]] && t == t[..|t| - 1] + [t[|t| - 1]];
  }

  /** Two lists of the same groups, both in order, are one. */
  lemma {:induction false} OneOrder(s: seq<Group>, t: seq<Group>, keyBefore: (string, string) -> bool)
    requires LinearOrder(keyBefore) && InOrder(s, keyBefore) && InOrder(t, keyBefore)
    requires multiset(s) == multiset(t)
    ensures s == t
    decreases |s|
  {
    SameLength(s, t);
    if s != [] {
      SameLast(s, t, keyBefore);
      RestAreSame(s, t);
      PrefixInOrder(s, keyBefore);
      PrefixInOrder(t, keyBefore);
      OneOrder(s[..|s| - 1], t[..|t| - 1], keyBefore);
      SameEnds(s, t);
    }
  }

  lemma SameLast(s: seq<Group>, t: seq<Group>, keyBefore: (string, string) -> bool)
    requires LinearOrder(keyBefore) && InOrder(s, keyBefore) && InOrder(t, keyBefore)
    requires multiset(s) == multiset(t) && |s| == |t| > 0
    ensures s[|s| - 1] == t[|t| - 1]
  {
    var x, y := s[|s| - 1], t[|t| - 1];
    assert x in multiset(t) && y in multiset(s);
    var i :| 0 <= i < |t| && t[i] == x;
    var j :| 0 <= j < |s| && s[j] == y;
  }

  /**
    Every shard computes the same plan: the order in which the groups are given does not
    matter, as long as the comparison of keys is a linear order.
   */
  lemma ScheduleIgnoresTheOrder(s: seq<Group>, t: seq<Group>, shardCount: int, initialLoads: seq<int>,
                                keyBefore: (string, string) -> bool)
    requires LinearOrder(keyBefore) && ValidInput(s, shardCount, initialLoads) && multiset(s) == multiset(t)
    ensures ValidInput(t, shardCount, initialLoads)
    ensures InOrder(Sorted(s, keyBefore), keyBefore)
    ensures ScheduleOf(s, shardCount, initialLoads, keyBefore) == ScheduleOf(t, shardCount, initialLoads, keyBefore)
  {
    DistinctKeysPermute(s, t);
    SortedInOrder(s, keyBefore);
    SortedInOrder(t, keyBefore);
    OneOrder(Sorted(s, keyBefore), Sorted(t, keyBefore), keyBefore);
  }
}
