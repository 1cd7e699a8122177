/**
 The kernel position index: a doubly linked list per commitment, kept in a key-value map.

 `Index` holds the two key spaces of the database ("list" keys and "entry" keys).  Its ghost
 field `contents` is the abstract value: for every commitment a sequence of positions, oldest
 first.  Every operation is proved to act on `contents` as the plain sequence operation does.
 Entries that are no longer reachable may stay behind in `entries`; `Valid` says nothing about
 them, and every entry that will ever be followed is pinned down by `Linked`.
 */
module MultiIndex {
  import opened Collections

  type Commit = nat

  datatype CommitPos = CommitPos(pos: nat, height: nat)

  datatype ListWrapper =
    | Single(at: CommitPos)
    | Multi(head: nat, tail: nat)

  datatype ListEntry =
    | Head(at: CommitPos, next: nat)
    | Tail(at: CommitPos, prev: nat)
    | Middle(at: CommitPos, next: nat, prev: nat)

  datatype Error =
    | PosMustBeIncreasing
    | ExpectedHead
    | ExpectedTail
    | NextUnexpected
    | NextMissing
    | PrevUnexpected
    | PrevMissing

  datatype Result<+T> = Ok(value: T) | Err(error: Error) {
    // The same outcome without the value.
    function Void(): Result<()> {
      match this
      case Ok(_) => Ok(())
      case Err(e) => Err(e)
    }
  }

  type Lists = map<Commit, ListWrapper>
  type Entries = map<(Commit, nat), ListEntry>
  type Contents = map<Commit, seq<CommitPos>>

  // ----- the abstract list -----

  ghost predicate Increasing(s: seq<CommitPos>) {
    forall i, j :: 0 <= i < j < |s| ==> s[i].pos < s[j].pos
  }

  function Get(m: Contents, c: Commit): seq<CommitPos> {
    if c in m then m[c] else []
  }

  // An empty list and an absent one are the same thing.
  function Put(m: Contents, c: Commit, s: seq<CommitPos>): Contents {
    if s == [] then m - {c} else m[c := s]
  }

  function Newest(s: seq<CommitPos>): Option<CommitPos> {
    if s == [] then None else Some(s[|s| - 1])
  }

  function Oldest(s: seq<CommitPos>): Option<CommitPos> {
    if s == [] then None else Some(s[0])
  }

  function DropNewest(s: seq<CommitPos>): seq<CommitPos> {
    if s == [] then [] else s[..|s| - 1]
  }

  function DropOldest(s: seq<CommitPos>): seq<CommitPos> {
    if s == [] then [] else s[1..]
  }

  function SpecPush(m: Contents, c: Commit, p: CommitPos): (Result<()>, Contents) {
    var s := Get(m, c);
    if s != [] && p.pos <= s[|s| - 1].pos then (Err(PosMustBeIncreasing), m)
    else (Ok(()), Put(m, c, s + [p]))
  }

  // The entries of an increasing list at positions up to p: what a rewind must leave.
  function UpTo(s: seq<CommitPos>, p: nat): seq<CommitPos> {
    if s == [] then []
    else if s[|s| - 1].pos <= p then s
    else UpTo(s[..|s| - 1], p)
  }

  // The entry stored for the i-th oldest element of a list with at least two elements.
  function EntryAt(s: seq<CommitPos>, i: nat): ListEntry
    requires |s| >= 2 && i < |s|
  {
    if i == 0 then Tail(s[0], s[1].pos)
    else if i == |s| - 1 then Head(s[i], s[i - 1].pos)
    else Middle(s[i], s[i - 1].pos, s[i + 1].pos)
  }

  // The stored wrapper and the stored links spell out exactly s.
  ghost predicate Linked(lists: Lists, entries: Entries, c: Commit, s: seq<CommitPos>) {
    && Increasing(s)
    && s != []
    && c in lists
    && (|s| == 1 ==> lists[c] == Single(s[0]))
    && (|s| >= 2 ==>
          && lists[c] == Multi(s[|s| - 1].pos, s[0].pos)
          && forall i {:trigger EntryAt(s, i)} :: 0 <= i < |s| ==>
               && (c, s[i].pos) in entries
               && entries[(c, s[i].pos)] == EntryAt(s, i))
  }

  ghost predicate Represents(lists: Lists, entries: Entries, m: Contents) {
    && m.Keys == lists.Keys
    && forall c :: c in m ==> Linked(lists, entries, c, m[c])
  }

  // Only keys of commitment c may differ.
  ghost predicate OthersUntouched(l0: Lists, e0: Entries, l1: Lists, e1: Entries, c: Commit) {
    && (forall d :: d != c ==> (d in l0 <==> d in l1) && (d in l0 ==> l0[d] == l1[d]))
    && (forall k: (Commit, nat) :: k.0 != c ==> (k in e0 <==> k in e1) && (k in e0 ==> e0[k] == e1[k]))
  }

  // A database in which only commitment c changed, and now spells out s, represents the
  // contents with c's list replaced by s.
  lemma RepresentsPut(l0: Lists, e0: Entries, l1: Lists, e1: Entries, m: Contents,
                      c: Commit, s: seq<CommitPos>)
    requires Represents(l0, e0, m)
    requires OthersUntouched(l0, e0, l1, e1, c)
    requires s == [] ==> c !in l1
    requires s != [] ==> Linked(l1, e1, c, s)
    ensures Represents(l1, e1, Put(m, c, s))
  {
    forall d | d in m && d != c
      ensures Linked(l1, e1, d, m[d])
    {
      assert Linked(l0, e0, d, m[d]);
      LinkedFrame(l0, e0, l1, e1, d, m[d]);
    }
  }

  lemma LinkedFrame(l0: Lists, e0: Entries, l1: Lists, e1: Entries, d: Commit, s: seq<CommitPos>)
    requires Linked(l0, e0, d, s)
    requires d in l1 && l1[d] == l0[d]
    requires forall k: (Commit, nat) :: k in e0 && k.0 == d ==> k in e1 && e1[k] == e0[k]
    ensures Linked(l1, e1, d, s)
  {
    if |s| >= 2 {
      forall i | 0 <= i < |s|
        ensures (d, s[i].pos) in e1 && e1[(d, s[i].pos)] == EntryAt(s, i)
      {
        var k, e := (d, s[i].pos), EntryAt(s, i);
        assert k in e0 && e0[k] == e;
      }
    }
  }

  // ----- what each rewriting of links does to the list they spell out -----

  lemma PushOnSingle(lists: Lists, entries: Entries, c: Commit, s: seq<CommitPos>, p: CommitPos)
    requires Linked(lists, entries, c, s) && |s| == 1 && s[0].pos < p.pos
    ensures Linked(lists[c := Multi(p.pos, s[0].pos)],
                   entries[(c, p.pos) := Head(p, s[0].pos)][(c, s[0].pos) := Tail(s[0], p.pos)],
                   c, s + [p])
  {
    var t := s + [p];
    assert EntryAt(t, 0) == Tail(s[0], p.pos) && EntryAt(t, 1) == Head(p, s[0].pos);
  }

  lemma PushOnMulti(lists: Lists, entries: Entries, c: Commit, s: seq<CommitPos>, p: CommitPos)
    requires Linked(lists, entries, c, s) && |s| >= 2 && s[|s| - 1].pos < p.pos
    ensures var n := |s|;
            Linked(lists[c := Multi(p.pos, s[0].pos)],
                   entries[(c, p.pos) := Head(p, s[n - 1].pos)]
                          [(c, s[n - 1].pos) := Middle(s[n - 1], s[n - 2].pos, p.pos)],
                   c, s + [p])
  {
    var n, t := |s|, s + [p];
    var e := entries[(c, p.pos) := Head(p, s[n - 1].pos)]
                    [(c, s[n - 1].pos) := Middle(s[n - 1], s[n - 2].pos, p.pos)];
    forall i | 0 <= i < |t|
      ensures (c, t[i].pos) in e && e[(c, t[i].pos)] == EntryAt(t, i)
    {
      if i < n - 1 {
        assert s[i].pos < s[n - 1].pos < p.pos;
        assert EntryAt(t, i) == EntryAt(s, i);
      }
    }
  }

  lemma PopToMulti(lists: Lists, entries: Entries, c: Commit, s: seq<CommitPos>)
    requires Linked(lists, entries, c, s) && |s| >= 3
    ensures var n := |s|;
            Linked(lists[c := Multi(s[n - 2].pos, s[0].pos)],
                   (entries - {(c, s[n - 1].pos)})[(c, s[n - 2].pos) := Head(s[n - 2], s[n - 3].pos)],
                   c, DropNewest(s))
  {
    var n, t := |s|, DropNewest(s);
    var e := (entries - {(c, s[n - 1].pos)})[(c, s[n - 2].pos) := Head(s[n - 2], s[n - 3].pos)];
    forall i | 0 <= i < |t|
      ensures (c, t[i].pos) in e && e[(c, t[i].pos)] == EntryAt(t, i)
    {
      assert s[i].pos < s[n - 1].pos;
      if i < n - 2 {
        assert s[i].pos < s[n - 2].pos;
        assert EntryAt(t, i) == EntryAt(s, i);
      }
    }
  }

  lemma PopBackToMulti(lists: Lists, entries: Entries, c: Commit, s: seq<CommitPos>)
    requires Linked(lists, entries, c, s) && |s| >= 3
    ensures var n := |s|;
            Linked(lists[c := Multi(s[n - 1].pos, s[1].pos)],
                   (entries - {(c, s[0].pos)})[(c, s[1].pos) := Tail(s[1], s[2].pos)],
                   c, DropOldest(s))
  {
    var n, t := |s|, DropOldest(s);
    var e := (entries - {(c, s[0].pos)})[(c, s[1].pos) := Tail(s[1], s[2].pos)];
    forall i | 0 <= i < |t|
      ensures (c, t[i].pos) in e && e[(c, t[i].pos)] == EntryAt(t, i)
    {
      assert t[i] == s[i + 1] && s[0].pos < s[i + 1].pos;
      if 0 < i {
        assert s[1].pos < s[i + 1].pos;
        assert EntryAt(t, i) == EntryAt(s, i + 1);
      }
    }
  }

  // ----- the database and its operations -----

  class Index {
    var lists: Lists
    var entries: Entries
    ghost var contents: Contents

    ghost predicate Valid()
      reads this
    {
      Represents(lists, entries, contents)
    }

    constructor ()
      ensures Valid() && contents == map[]
    {
      lists, entries, contents := map[], map[], map[];
    }

    method GetEntry(c: Commit, pos: nat) returns (r: Option<ListEntry>)
      ensures r == if (c, pos) in entries then Some(entries[(c, pos)]) else None
    {
      if (c, pos) in entries { return Some(entries[(c, pos)]); }
      return None;
    }

    // The newest position, or nothing for an unknown commitment.  Never an error.
    method PeekPos(c: Commit) returns (r: Result<Option<CommitPos>>)
      requires Valid()
      ensures r == Ok(Newest(Get(contents, c)))
    {
      if c !in lists { return Ok(None); }
      ghost var s := contents[c];
      assert Linked(lists, entries, c, s);
      match lists[c] {
        case Single(at) => return Ok(Some(at));
        case Multi(head, _) =>
          var e := GetEntry(c, head);
          assert e == Some(EntryAt(s, |s| - 1));
          if e.Some? && e.value.Head? {
            return Ok(Some(e.value.at));
          }
          return Err(ExpectedHead);
      }
    }

    // Appends iff the position is beyond the newest one; otherwise nothing changes.
    method PushPos(c: Commit, newPos: CommitPos) returns (r: Result<()>)
      requires Valid()
      modifies this
      ensures Valid()
      ensures (r, contents) == SpecPush(old(contents), c, newPos)
      ensures OthersUntouched(old(lists), old(entries), lists, entries, c)
    {
      ghost var s := Get(contents, c);
      if c in lists {
        assert Linked(lists, entries, c, s);
        match lists[c] {
          case Single(current) =>
            if newPos.pos <= current.pos { return Err(PosMustBeIncreasing); }
            entries := entries[(c, newPos.pos) := Head(newPos, current.pos)];
            entries := entries[(c, current.pos) := Tail(current, newPos.pos)];
            lists := lists[c := Multi(newPos.pos, current.pos)];
            PushOnSingle(old(lists), old(entries), c, s, newPos);
          case Multi(head, tail) =>
            if newPos.pos <= head { return Err(PosMustBeIncreasing); }
            var e := GetEntry(c, head);
            assert e == Some(EntryAt(s, |s| - 1));
            if e.Some? && e.value.Head? {
              var current, currentNext := e.value.at, e.value.next;
              entries := entries[(c, newPos.pos) := Head(newPos, current.pos)];
              entries := entries[(c, current.pos) := Middle(current, currentNext, newPos.pos)];
              lists := lists[c := Multi(newPos.pos, tail)];
              PushOnMulti(old(lists), old(entries), c, s, newPos);
            } else {
              return Err(ExpectedHead);
            }
        }
      } else {
        lists := lists[c := Single(newPos)];
      }
      Relist(old(lists), old(entries), c, s + [newPos]);
      return Ok(());
    }

    // Replaces c's list, given that the database now spells out s for it.
    ghost method Relist(l0: Lists, e0: Entries, c: Commit, s: seq<CommitPos>)
      requires Represents(l0, e0, contents)
      requires OthersUntouched(l0, e0, lists, entries, c)
      requires s == [] ==> c !in lists
      requires s != [] ==> Linked(lists, entries, c, s)
      modifies this`contents
      ensures Valid() && contents == Put(old(contents), c, s)
    {
      RepresentsPut(l0, e0, lists, entries, contents, c, s);
      contents := Put(contents, c, s);
    }

    // Removes and returns the newest position.
    method PopPos(c: Commit) returns (r: Result<Option<CommitPos>>)
      requires Valid()
      modifies this
      ensures Valid()
      ensures r == Ok(Newest(Get(old(contents), c)))
      ensures contents == Put(old(contents), c, DropNewest(Get(old(contents), c)))
      ensures OthersUntouched(old(lists), old(entries), lists, entries, c)
      ensures |Get(old(contents), c)| >= 2 ==> r.value.Some? && (c, r.value.value.pos) !in entries
    {
      if c !in lists {
        assert contents - {c} == contents;
        return Ok(None);
      }
      assert Linked(lists, entries, c, contents[c]);
      match lists[c] {
        case Single(at) =>
          lists := lists - {c};
          Relist(old(lists), old(entries), c, []);
          return Ok(Some(at));
        case Multi(head, tail) =>
          r := PopFromMulti(c, head, tail);
      }
    }

    method PopFromMulti(c: Commit, head: nat, tail: nat) returns (r: Result<Option<CommitPos>>)
      requires Valid()
      requires c in lists && lists[c] == Multi(head, tail)
      modifies this
      ensures Valid()
      ensures r == Ok(Newest(Get(old(contents), c)))
      ensures contents == Put(old(contents), c, DropNewest(Get(old(contents), c)))
      ensures OthersUntouched(old(lists), old(entries), lists, entries, c)
      ensures r.value.Some? && (c, r.value.value.pos) !in entries
    {
      ghost var s := contents[c];
      assert Linked(lists, entries, c, s);
      var e := GetEntry(c, head);
      assert e == Some(EntryAt(s, |s| - 1));
      if e.Some? && e.value.Head? {
        var current, currentNext := e.value.at, e.value.next;
        var n := GetEntry(c, currentNext);
        assert n == Some(EntryAt(s, |s| - 2));
        if n.None? { return Err(NextMissing); }
        match n.value {
          case Middle(at, next, _) =>
            entries := entries - {(c, current.pos)};
            entries := entries[(c, at.pos) := Head(at, next)];
            lists := lists[c := Multi(at.pos, tail)];
            PopToMulti(old(lists), old(entries), c, s);
          case Tail(at, _) =>
            entries := entries - {(c, current.pos)};
            lists := lists[c := Single(at)];
          case Head(_, _) => return Err(NextUnexpected);
        }
        Relist(old(lists), old(entries), c, DropNewest(s));
        return Ok(Some(current));
      } else {
        return Err(ExpectedHead);
      }
    }

    // Removes and returns the oldest position.
    method PopPosBack(c: Commit) returns (r: Result<Option<CommitPos>>)
      requires Valid()
      modifies this
      ensures Valid()
      ensures r == Ok(Oldest(Get(old(contents), c)))
      ensures contents == Put(old(contents), c, DropOldest(Get(old(contents), c)))
      ensures OthersUntouched(old(lists), old(entries), lists, entries, c)
      ensures |Get(old(contents), c)| >= 2 ==> r.value.Some? && (c, r.value.value.pos) !in entries
    {
      if c !in lists {
        assert contents - {c} == contents;
        return Ok(None);
      }
      assert Linked(lists, entries, c, contents[c]);
      match lists[c] {
        case Single(at) =>
          lists := lists - {c};
          Relist(old(lists), old(entries), c, []);
          return Ok(Some(at));
        case Multi(head, tail) =>
          r := PopBackFromMulti(c, head, tail);
      }
    }

    method PopBackFromMulti(c: Commit, head: nat, tail: nat) returns (r: Result<Option<CommitPos>>)
      requires Valid()
      requires c in lists && lists[c] == Multi(head, tail)
      modifies this
      ensures Valid()
      ensures r == Ok(Oldest(Get(old(contents), c)))
      ensures contents == Put(old(contents), c, DropOldest(Get(old(contents), c)))
      ensures OthersUntouched(old(lists), old(entries), lists, entries, c)
      ensures r.value.Some? && (c, r.value.value.pos) !in entries
    {
      ghost var s := contents[c];
      assert Linked(lists, entries, c, s);
      var e := GetEntry(c, tail);
      assert e == Some(EntryAt(s, 0));
      if e.Some? && e.value.Tail? {
        var current, currentPrev := e.value.at, e.value.prev;
        var n := GetEntry(c, currentPrev);
        assert n == Some(EntryAt(s, 1));
        if n.None? { return Err(PrevMissing); }
        match n.value {
          case Middle(at, _, prev) =>
            entries := entries - {(c, current.pos)};
            entries := entries[(c, at.pos) := Tail(at, prev)];
            lists := lists[c := Multi(head, at.pos)];
            PopBackToMulti(old(lists), old(entries), c, s);
          case Head(at, _) =>
            entries := entries - {(c, current.pos)};
            lists := lists[c := Single(at)];
          case Tail(_, _) => return Err(PrevUnexpected);
        }
        Relist(old(lists), old(entries), c, DropOldest(s));
        return Ok(Some(current));
      } else {
        return Err(ExpectedTail);
      }
    }

    // Pops until the newest position is at most rewindPos.
    method Rewind(c: Commit, rewindPos: nat) returns (r: Result<()>)
      requires Valid()
      modifies this
      ensures Valid()
      ensures r == Ok(())
      ensures contents == Put(old(contents), c, UpTo(Get(old(contents), c), rewindPos))
      ensures OthersUntouched(old(lists), old(entries), lists, entries, c)
    {
      assert Put(contents, c, Get(contents, c)) == contents;
      while true
        invariant Valid()
        invariant contents == Put(old(contents), c, Get(contents, c))
        invariant UpTo(Get(contents, c), rewindPos) == UpTo(Get(old(contents), c), rewindPos)
        invariant OthersUntouched(old(lists), old(entries), lists, entries, c)
        decreases |Get(contents, c)|
      {
        var newest := PeekPos(c);
        if newest.Err? { return newest.Void(); }
        if !(newest.value.Some? && newest.value.value.pos > rewindPos) { break; }
        ghost var s := Get(contents, c);
        var popped := PopPos(c);
        PutPut(old(contents), c, s, DropNewest(s));
        if popped.Err? { return popped.Void(); }
      }
      return Ok(());
    }

    // Deletes every list key, then every entry key, reachable or not.
    method Clear()
      modifies this
      ensures Valid() && contents == map[] && lists == map[] && entries == map[]
    {
      var listKeys := lists.Keys;
      while listKeys != {}
        invariant lists.Keys == listKeys && entries == old(entries)
        decreases |listKeys|
      {
        var k :| k in listKeys;
        lists := lists - {k};
        listKeys := listKeys - {k};
      }
      var entryKeys := entries.Keys;
      while entryKeys != {}
        invariant lists == map[] && entries.Keys == entryKeys
        decreases |entryKeys|
      {
        var k :| k in entryKeys;
        entries := entries - {k};
        entryKeys := entryKeys - {k};
      }
      contents := map[];
    }

    method Step(op: Op) returns (r: Response)
      requires Valid()
      modifies this
      ensures Valid()
      ensures (r, contents) == SpecStep(old(contents), op)
    {
      match op {
        case Push(c, p) => var x := PushPos(c, p); return Done(x);
        case Pop(c) => var x := PopPos(c); return Position(x);
        case PopBack(c) => var x := PopPosBack(c); return Position(x);
        case Peek(c) => var x := PeekPos(c); return Position(x);
        case RewindTo(c, p) => var x := Rewind(c, p); return Done(x);
        case ClearAll => Clear(); return Done(Ok(()));
      }
    }

    // Any interleaving of the operations answers and ends exactly as on plain sequences.
    method Run(ops: seq<Op>) returns (rs: seq<Response>)
      requires Valid()
      modifies this
      ensures Valid()
      ensures (rs, contents) == SpecRun(old(contents), ops)
    {
      rs := [];
      for i := 0 to |ops|
        invariant Valid()
        invariant (rs, contents) == SpecRun(old(contents), ops[..i])
      {
        assert ops[..i + 1][..i] == ops[..i];
        var r := Step(ops[i]);
        rs := rs + [r];
      }
      assert ops[..|ops|] == ops;
    }
  }

  // ----- runs over plain sequences -----

  datatype Op =
    | Push(c: Commit, p: CommitPos)
    | Pop(c: Commit)
    | PopBack(c: Commit)
    | Peek(c: Commit)
    | RewindTo(c: Commit, upTo: nat)
    | ClearAll

  datatype Response = Done(done: Result<()>) | Position(position: Result<Option<CommitPos>>)

  function SpecStep(m: Contents, op: Op): (Response, Contents) {
    match op
    case Push(c, p) => var (r, m') := SpecPush(m, c, p); (Done(r), m')
    case Pop(c) => (Position(Ok(Newest(Get(m, c)))), Put(m, c, DropNewest(Get(m, c))))
    case PopBack(c) => (Position(Ok(Oldest(Get(m, c)))), Put(m, c, DropOldest(Get(m, c))))
    case Peek(c) => (Position(Ok(Newest(Get(m, c)))), m)
    case RewindTo(c, p) => (Done(Ok(())), Put(m, c, UpTo(Get(m, c), p)))
    case ClearAll => (Done(Ok(())), map[])
  }

  function SpecRun(m: Contents, ops: seq<Op>): (seq<Response>, Contents) {
    if ops == [] then ([], m)
    else
      var (rs, m1) := SpecRun(m, ops[..|ops| - 1]);
      var (r, m2) := SpecStep(m1, ops[|ops| - 1]);
      (rs + [r], m2)
  }

  lemma PutPut(m: Contents, c: Commit, s: seq<CommitPos>, t: seq<CommitPos>)
    ensures Put(Put(m, c, s), c, t) == Put(m, c, t)
  {
  }

  lemma PutGet(m: Contents, c: Commit)
    requires c in m ==> m[c] != []
    ensures Put(m, c, Get(m, c)) == m
  {
  }

  // What a rewind leaves is a prefix, and it is exactly the entries at positions up to p.
  lemma {:induction false} UpToExact(s: seq<CommitPos>, p: nat)
    requires Increasing(s)
    ensures UpTo(s, p) <= s
    ensures forall x :: x in UpTo(s, p) <==> x in s && x.pos <= p
  {
    if s != [] && s[|s| - 1].pos > p {
      var init := s[..|s| - 1];
      UpToExact(init, p);
      assert s == init + [s[|s| - 1]];
    }
  }

  ghost predicate AllIncreasing(m: Contents) {
    forall c :: c in m ==> m[c] != [] && Increasing(m[c])
  }

  // Over any run from a well-formed index every list stays strictly increasing, and the only
  // error ever answered is the refusal of a position that is not beyond the newest one.
  lemma {:induction false} RunKeepsIncreasing(m: Contents, ops: seq<Op>)
    requires AllIncreasing(m)
    ensures AllIncreasing(SpecRun(m, ops).1)
    ensures forall r :: r in SpecRun(m, ops).0 ==>
              && (r.Position? ==> r.position.Ok?)
              && (r.Done? && r.done.Err? ==> r.done.error == PosMustBeIncreasing)
  {
    if ops != [] {
      var before, op := ops[..|ops| - 1], ops[|ops| - 1];
      RunKeepsIncreasing(m, before);
      StepKeepsIncreasing(SpecRun(m, before).1, op);
    }
  }

  lemma StepKeepsIncreasing(m: Contents, op: Op)
    requires AllIncreasing(m)
    ensures AllIncreasing(SpecStep(m, op).1)
    ensures var r := SpecStep(m, op).0;
      && (r.Position? ==> r.position.Ok?)
      && (r.Done? && r.done.Err? ==> r.done.error == PosMustBeIncreasing)
  {
    match op {
      case Push(c, p) =>
      case Pop(c) => PutIncreasing(m, c, DropNewest(Get(m, c)));
      case PopBack(c) => PutIncreasing(m, c, DropOldest(Get(m, c)));
      case Peek(_) =>
      case RewindTo(c, p) =>
        UpToExact(Get(m, c), p);
        PutIncreasing(m, c, UpTo(Get(m, c), p));
      case ClearAll =>
    }
  }

  lemma PutIncreasing(m: Contents, c: Commit, s: seq<CommitPos>)
    requires AllIncreasing(m) && Increasing(s)
    ensures AllIncreasing(Put(m, c, s))
  {
  }

  function Pushes(c: Commit, ps: seq<CommitPos>): (ops: seq<Op>)
    ensures |ops| == |ps|
  {
    if ps == [] then [] else Pushes(c, ps[..|ps| - 1]) + [Push(c, ps[|ps| - 1])]
  }

  lemma RunOneMore(m: Contents, ops: seq<Op>, op: Op)
    ensures SpecRun(m, ops + [op]).1 == SpecStep(SpecRun(m, ops).1, op).1
  {
    var all := ops + [op];
    assert all[..|all| - 1] == ops;
  }

  lemma {:induction false} PushesAppend(m: Contents, c: Commit, ps: seq<CommitPos>)
    requires AllIncreasing(m)
    requires Increasing(Get(m, c) + ps)
    ensures SpecRun(m, Pushes(c, ps)).1 == Put(m, c, Get(m, c) + ps)
  {
    if ps == [] {
      assert Get(m, c) + ps == Get(m, c);
      PutGet(m, c);
    } else {
      var s, init, p := Get(m, c), ps[..|ps| - 1], ps[|ps| - 1];
      var t := s + init;
      assert t + [p] == s + ps;
      assert Increasing(t) && (t != [] ==> t[|t| - 1].pos < p.pos) by {
        assert forall i :: 0 <= i < |t| ==> t[i] == (t + [p])[i];
        assert (t + [p])[|t|] == p;
      }
      PushesAppend(m, c, init);
      RunOneMore(m, Pushes(c, init), Push(c, p));
      PushOnPut(m, c, t, p);
    }
  }

  lemma PushOnPut(m: Contents, c: Commit, t: seq<CommitPos>, p: CommitPos)
    requires t != [] ==> t[|t| - 1].pos < p.pos
    ensures SpecStep(Put(m, c, t), Push(c, p)).1 == Put(m, c, t + [p])
  {
    PutPut(m, c, t, t + [p]);
  }

  // Rewinding undoes a block: whatever positions beyond p were pushed for c since the index
  // was at or below p, the rewind to p gives back the index as it was.
  lemma RewindUndoesPushes(m: Contents, c: Commit, ps: seq<CommitPos>, p: nat)
    requires AllIncreasing(m)
    requires Increasing(Get(m, c) + ps)
    requires forall x :: x in Get(m, c) ==> x.pos <= p
    requires forall x :: x in ps ==> x.pos > p
    ensures SpecRun(m, Pushes(c, ps) + [RewindTo(c, p)]).1 == m
  {
    var s := Get(m, c);
    PushesAppend(m, c, ps);
    RunOneMore(m, Pushes(c, ps), RewindTo(c, p));
    assert Get(Put(m, c, s + ps), c) == s + ps;
    UpToDropsSuffix(s, ps, p);
    PutPut(m, c, s + ps, s);
    PutGet(m, c);
  }

  lemma {:induction false} UpToDropsSuffix(s: seq<CommitPos>, ps: seq<CommitPos>, p: nat)
    requires forall x :: x in s ==> x.pos <= p
    requires forall x :: x in ps ==> x.pos > p
    ensures UpTo(s + ps, p) == s
  {
    if ps == [] {
      assert s + ps == s;
    } else {
      var init := ps[..|ps| - 1];
      assert (s + ps)[..|s + ps| - 1] == s + init;
      UpToDropsSuffix(s, init, p);
    }
  }
}
