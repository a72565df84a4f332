/** The connection pool's two-way index: connections by address and addresses by connection. */
module PoolIndex {

  /** An element of a connection list; only slots beyond a list's end may be `Nil`. */
  datatype Slot = Nil | Conn(id: nat)

  datatype Index = Index(conns: map<string, seq<Slot>>, keys: map<Slot, seq<string>>)

  function ConnsOf(ix: Index, key: string): seq<Slot> {
    if key in ix.conns then ix.conns[key] else []
  }

  function KeysOf(ix: Index, cc: Slot): seq<string> {
    if cc in ix.keys then ix.keys[cc] else []
  }

  ghost predicate Distinct<T>(s: seq<T>) {
    forall i, j :: 0 <= i < j < |s| ==> s[i] != s[j]
  }

  /** Both directions say the same, no list has duplicates, none is present but empty, and none
      holds a missing connection. */
  ghost predicate Valid(ix: Index) {
    && (forall key, cc :: cc in ConnsOf(ix, key) <==> key in KeysOf(ix, cc))
    && (forall key <- ix.conns :: ix.conns[key] != [] && Distinct(ix.conns[key]))
    && (forall cc <- ix.keys :: ix.keys[cc] != [] && Distinct(ix.keys[cc]) && cc != Nil)
  }

  // ---- Filtering ----

  function Without<T(==)>(s: seq<T>, x: T): seq<T> {
    if s == [] then []
    else
      var (earlier, last) := (s[..|s| - 1], s[|s| - 1]);
      if last == x then Without(earlier, x) else Without(earlier, x) + [last]
  }

  lemma {:induction false} WithoutMembers<T>(s: seq<T>, x: T, y: T)
    ensures |Without(s, x)| <= |s|
    ensures y in Without(s, x) <==> y in s && y != x
  {
    if s != [] {
      WithoutMembers(s[..|s| - 1], x, y);
      assert s == s[..|s| - 1] + [s[|s| - 1]];
    }
  }

  lemma {:induction false} WithoutIsDistinct<T>(s: seq<T>, x: T)
    requires Distinct(s)
    ensures Distinct(Without(s, x))
  {
    if s != [] {
      WithoutIsDistinct(s[..|s| - 1], x);
      WithoutMembers(s[..|s| - 1], x, s[|s| - 1]);
    }
  }

  /** The elements that stay keep their order: removing `x` and inserting it back where it was
      gives the list again, when it occurs once. */
  lemma {:induction false} WithoutKeepsOrder<T>(s: seq<T>, x: T, i: nat)
    requires i < |s| && s[i] == x && Distinct(s)
    ensures Without(s, x) == s[..i] + s[i + 1..]
  {
    var (earlier, last) := (s[..|s| - 1], s[|s| - 1]);
    if i == |s| - 1 {
      WithoutNothing(earlier, x);
    } else {
      WithoutKeepsOrder(earlier, x, i);
      assert s[i + 1..] == earlier[i + 1..] + [last];
      assert s[..i] == earlier[..i];
    }
  }

  lemma {:induction false} WithoutNothing<T>(s: seq<T>, x: T)
    requires x !in s
    ensures Without(s, x) == s
  {
    if s != [] {
      WithoutNothing(s[..|s| - 1], x);
    }
  }

  /** Filters a connection list in its own storage and clears the last slot if one was freed. */
  method FilterOutClientConn(list: array<Slot>, exclude: Slot) returns (n: nat)
    modifies list
    ensures n == |Without(old(list[..]), exclude)| <= list.Length
    ensures list[..n] == Without(old(list[..]), exclude)
    ensures forall j :: n <= j < list.Length - 1 ==> list[j] == old(list[j])
    ensures n < list.Length ==> list[list.Length - 1] == Nil
  {
    n := 0;
    for i := 0 to list.Length
      invariant n <= i
      invariant list[..n] == Without(old(list[..i]), exclude)
      invariant forall j :: n <= j < list.Length ==> list[j] == old(list[j])
    {
      assert old(list[..i + 1])[..i] == old(list[..i]);
      var v := list[i];
      if v != exclude {
        list[n] := v;
        n := n + 1;
      }
    }
    assert old(list[..list.Length]) == old(list[..]);
    if list.Length != n {
      list[list.Length - 1] := Nil;
    }
  }

  // ---- Adding and dropping a connection ----

  function AddConn(ix: Index, key: string, cc: Slot): Index {
    if cc in ConnsOf(ix, key) then ix
    else Index(ix.conns[key := ConnsOf(ix, key) + [cc]], ix.keys[cc := KeysOf(ix, cc) + [key]])
  }

  /** No list mentions `cc` any more; the other connections stay where they are. */
  function DropConn(ix: Index, cc: Slot): Index {
    Index(map key | key in ix.conns && Without(ix.conns[key], cc) != [] :: Without(ix.conns[key], cc),
          ix.keys - {cc})
  }

  lemma AddConnKeeps(ix: Index, key: string, cc: Slot)
    requires Valid(ix) && cc != Nil
    ensures Valid(AddConn(ix, key, cc))
    ensures cc in ConnsOf(AddConn(ix, key, cc), key)
    ensures ConnsOf(ix, key) <= ConnsOf(AddConn(ix, key, cc), key)
    ensures |ConnsOf(AddConn(ix, key, cc), key)| == |ConnsOf(ix, key)| + if cc in ConnsOf(ix, key) then 0 else 1
    ensures forall k :: k != key ==> ConnsOf(AddConn(ix, key, cc), k) == ConnsOf(ix, k)
    ensures forall k, c :: c in ConnsOf(ix, k) ==> c in ConnsOf(AddConn(ix, key, cc), k)
  {
    var ix' := AddConn(ix, key, cc);
    forall k, c ensures c in ConnsOf(ix', k) <==> k in KeysOf(ix', c) {
      assert c in ConnsOf(ix, k) <==> k in KeysOf(ix, c);
    }
    assert cc in ConnsOf(ix, key) <==> key in KeysOf(ix, cc);
  }

  lemma DropConnKeeps(ix: Index, cc: Slot)
    requires Valid(ix)
    ensures Valid(DropConn(ix, cc))
    ensures forall key, c :: c in ConnsOf(DropConn(ix, cc), key) <==> c in ConnsOf(ix, key) && c != cc
    ensures forall key :: ConnsOf(DropConn(ix, cc), key) == Without(ConnsOf(ix, key), cc)
    ensures cc !in DropConn(ix, cc).keys
  {
    var ix' := DropConn(ix, cc);
    forall key, c ensures c in ConnsOf(ix', key) <==> c in ConnsOf(ix, key) && c != cc {
      WithoutMembers(ConnsOf(ix, key), cc, c);
    }
    forall key, c ensures c in ConnsOf(ix', key) <==> key in KeysOf(ix', c) {
      assert c in ConnsOf(ix, key) <==> key in KeysOf(ix, c);
    }
    forall key <- ix'.conns ensures Distinct(ix'.conns[key]) {
      WithoutIsDistinct(ix.conns[key], cc);
    }
  }

  /** The pool's maps, changed step by step under its lock. */
  class ClientConnPool {
    var conns: map<string, seq<Slot>>
    var keys: map<Slot, seq<string>>

    function State(): Index
      reads this
    {
      Index(conns, keys)
    }

    constructor ()
      ensures State() == Index(map[], map[]) && Valid(State())
    {
      conns := map[];
      keys := map[];
    }

    method AddConnLocked(key: string, cc: Slot)
      requires Valid(State()) && cc != Nil
      modifies this
      ensures State() == AddConn(old(State()), key, cc) && Valid(State())
    {
      var list := ConnsOf(State(), key);
      for i := 0 to |list|
        invariant State() == old(State())
        invariant cc !in list[..i]
      {
        if list[i] == cc {
          return;
        }
      }
      AddConnKeeps(State(), key, cc);
      conns := conns[key := list + [cc]];
      keys := keys[cc := KeysOf(Index(conns, keys), cc) + [key]];
    }

    /** Visits only the addresses `keys` names, and still leaves `cc` in no list at all. */
    method MarkDead(cc: Slot)
      requires Valid(State())
      modifies this
      ensures State() == DropConn(old(State()), cc) && Valid(State())
    {
      hide Without, Distinct;
      ghost var start := State();
      var visited := KeysOf(State(), cc);
      DropConnKeeps(start, cc);
      for i := 0 to |visited|
        invariant keys == start.keys
        invariant DroppedFrom(start, conns, cc, visited[..i])
      {
        var key := visited[i];
        assert key !in visited[..i] by {
          KeysAreDistinct(start, cc);
        }
        ghost var before := conns;
        if key in conns {
          var list := Without(conns[key], cc);
          if |list| > 0 {
            conns := conns[key := list];
          } else {
            conns := conns - {key};
          }
        }
        DropFromOneMore(start, before, conns, cc, visited, i);
      }
      assert visited[..|visited|] == visited;
      AllAreDropped(start, conns, cc);
      keys := keys - {cc};
    }
  }

  /** `conns` are the lists of `start` with `cc` filtered out of those in `visited`. */
  ghost predicate DroppedFrom(start: Index, conns: map<string, seq<Slot>>, cc: Slot, visited: seq<string>) {
    && (forall key <- conns :: conns[key] != [])
    && forall key :: ConnsOf(Index(conns, start.keys), key)
         == if key in visited then Without(ConnsOf(start, key), cc) else ConnsOf(start, key)
  }

  lemma KeysAreDistinct(ix: Index, cc: Slot)
    requires Valid(ix)
    ensures forall i, j :: 0 <= i < j < |KeysOf(ix, cc)| ==> KeysOf(ix, cc)[i] != KeysOf(ix, cc)[j]
  {
  }

  lemma DropFromOneMore(start: Index, before: map<string, seq<Slot>>, after: map<string, seq<Slot>>, cc: Slot, visited: seq<string>, i: nat)
    requires i < |visited| && visited[i] !in visited[..i] && DroppedFrom(start, before, cc, visited[..i])
    requires var key := visited[i];
      after == if key !in before then before
               else if Without(before[key], cc) == [] then before - {key} else before[key := Without(before[key], cc)]
    ensures DroppedFrom(start, after, cc, visited[..i + 1])
  {
  }

  /** Filtering the lists that `keys` names is filtering all of them. */
  lemma AllAreDropped(start: Index, conns: map<string, seq<Slot>>, cc: Slot)
    requires Valid(start) && DroppedFrom(start, conns, cc, KeysOf(start, cc))
    ensures Index(conns, start.keys - {cc}) == DropConn(start, cc)
  {
    var (marked, dropped) := (Index(conns, start.keys - {cc}), DropConn(start, cc));
    forall key ensures ConnsOf(marked, key) == ConnsOf(dropped, key) {
      assert ConnsOf(Index(conns, start.keys), key)
        == if key in KeysOf(start, cc) then Without(ConnsOf(start, key), cc) else ConnsOf(start, key);
      if key !in KeysOf(start, cc) {
        assert cc in ConnsOf(start, key) <==> key in KeysOf(start, cc);
        WithoutNothing(ConnsOf(start, key), cc);
      }
    }
    SameLists(marked, dropped);
  }

  lemma SameLists(x: Index, y: Index)
    requires forall key <- x.conns :: x.conns[key] != []
    requires forall key <- y.conns :: y.conns[key] != []
    requires x.keys == y.keys && forall key :: ConnsOf(x, key) == ConnsOf(y, key)
    ensures x == y
  {
    forall key ensures key in x.conns <==> key in y.conns {
      assert ConnsOf(x, key) == ConnsOf(y, key);
    }
    forall key <- x.conns ensures x.conns[key] == y.conns[key] {
      assert ConnsOf(x, key) == ConnsOf(y, key);
    }
  }
}
