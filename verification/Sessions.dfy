/**
 * All sessions on the heap: they share nothing but the bindings, whose slots point back to exactly
 * the sessions bound to them, and the steps of stomp/stomp_subr.c keep it so.
 */
module Sessions {
  import opened Bytes
  import opened Rings
  import opened StompDatas
  import opened Bindings
  import opened StompSubr
  import Brokers
  import Members
  import Senders

  // ---------------------------------------------------------------------------
  // The links as values
  // ---------------------------------------------------------------------------

  /** Who owns what, who is bound to what, and what the table and the slots point to. */
  datatype Links = Links(
    repr: map<SessionData, set<object>>,
    bind: map<SessionData, Binding?>,
    table: map<seq<byte>, Binding>,
    sinks: map<Binding, set<StompData>>,
    arrays: map<Binding, object>)

  /** The sending halves of the sessions that are bound to b. */
  ghost function Bound(bind: map<SessionData, Binding?>, b: Binding): set<StompData> {
    set s | s in bind && bind[s] == b :: s.data
  }

  /** The sessions share nothing. */
  ghost predicate Apart(p: Links, index: BindingIndex) {
    && (forall s :: s in p.repr ==> s.data in p.repr[s] && index !in p.repr[s])
    && (forall s, t :: s in p.repr && t in p.repr ==> s !in p.repr[t] && (s != t ==> p.repr[s] !! p.repr[t]))
  }

  /** A binding in the table has that name, a member, and in its slots exactly the sessions bound to
      it; it belongs to no session. */
  ghost predicate TableOk(p: Links, n: seq<byte>)
    requires n in p.table
  {
    var b := p.table[n];
    && b.name == n && b in p.sinks && b in p.arrays
    && p.sinks[b] == Bound(p.bind, b) != {}
    && (forall s :: s in p.repr ==> b !in p.repr[s] && p.arrays[b] !in p.repr[s])
  }

  /** No two bindings have the same slots. */
  ghost predicate ArraysApart(p: Links) {
    forall m, n :: m in p.table && n in p.table && p.table[m] in p.arrays && p.table[n] in p.arrays && m != n ==>
      p.arrays[p.table[m]] != p.arrays[p.table[n]]
  }

  ghost predicate BindOk(p: Links, s: SessionData)
    requires s in p.bind
  {
    p.bind[s] != null ==> p.bind[s].name in p.table && p.table[p.bind[s].name] == p.bind[s]
  }

  ghost predicate Sound(p: Links, index: BindingIndex) {
    && p.bind.Keys == p.repr.Keys && Apart(p, index) && ArraysApart(p)
    && (forall n {:trigger TableOk(p, n)} :: n in p.table ==> TableOk(p, n))
    && (forall s {:trigger BindOk(p, s)} :: s in p.bind ==> BindOk(p, s))
  }

  lemma BoundOnce(p: Links, index: BindingIndex, s: SessionData, b: Binding)
    requires Sound(p, index) && s in p.bind
    ensures s.data in Bound(p.bind, b) <==> p.bind[s] == b
  {
    if s.data in Bound(p.bind, b) {
      var t :| t in p.bind && p.bind[t] == b && t.data == s.data;
      assert s.data in p.repr[t] * p.repr[s];
    }
  }

  /** Of the sessions only s has changed, and of the bindings only b; s has grown by `more`. */
  ghost predicate OnlyTouches(p: Links, p': Links, s: SessionData, b: Binding?, more: set<object>) {
    && s in p.repr && p'.repr.Keys == p.repr.Keys && p.bind.Keys == p.repr.Keys && p'.bind.Keys == p.bind.Keys
    && s.data in p'.repr[s] && p'.repr[s] <= p.repr[s] + more
    && (forall t :: t in p.repr && t != s ==> p'.repr[t] == p.repr[t] && p'.bind[t] == p.bind[t])
    && (p'.bind[s] == p.bind[s] || (p'.bind[s] == b && p.bind[s] == null) || (p'.bind[s] == null && p.bind[s] == b))
    && (forall n :: n in p.table && p.table[n] != b ==> n in p'.table && p'.table[n] == p.table[n])
    && (forall n :: n in p'.table && p'.table[n] != b ==>
          && n in p.table && p.table[n] == p'.table[n] && p'.table[n] in p.sinks && p'.table[n] in p'.sinks
          && p'.table[n] in p.arrays && p'.table[n] in p'.arrays
          && p'.sinks[p'.table[n]] == p.sinks[p'.table[n]] && p'.arrays[p'.table[n]] == p.arrays[p'.table[n]])
  }

  /** The new objects are none of the old ones. */
  ghost predicate AreNew(p: Links, index: BindingIndex, more: set<object>) {
    && index !in more
    && (forall s :: s in p.repr ==> s !in more && p.repr[s] !! more)
    && (forall n :: n in p.table ==> p.table[n] !in more)
    && (forall b :: b in p.arrays ==> p.arrays[b] !in more)
  }

  lemma ApartKept(p: Links, p': Links, index: BindingIndex, s: SessionData, b: Binding?, more: set<object>)
    requires Sound(p, index) && OnlyTouches(p, p', s, b, more) && AreNew(p, index, more)
    ensures Apart(p', index)
  {
  }

  lemma ArraysKept(p: Links, p': Links, index: BindingIndex, s: SessionData, b: Binding?, more: set<object>)
    requires Sound(p, index) && OnlyTouches(p, p', s, b, more)
    requires forall n :: n in p'.table && p'.table[n] == b ==> TableOk(p', n)
    requires b != null && b in p'.arrays ==>
               forall n :: n in p'.table && p'.table[n] != b && p'.table[n] in p'.arrays ==>
                 p'.arrays[p'.table[n]] != p'.arrays[b]
    ensures ArraysApart(p')
  {
  }

  lemma OthersTableOk(p: Links, p': Links, index: BindingIndex, s: SessionData, b: Binding?, more: set<object>,
                      n: seq<byte>)
    requires Sound(p, index) && OnlyTouches(p, p', s, b, more) && AreNew(p, index, more)
    requires n in p'.table && p'.table[n] != b
    ensures TableOk(p', n)
  {
    assert TableOk(p, n);
    var c := p'.table[n];
    assert Bound(p'.bind, c) == Bound(p.bind, c);
  }

  /** What is left of the invariant concerns the binding. */
  lemma LinksKept(p: Links, p': Links, index: BindingIndex, s: SessionData, b: Binding?, more: set<object>)
    requires Sound(p, index) && OnlyTouches(p, p', s, b, more) && AreNew(p, index, more)
    requires forall n :: n in p'.table && p'.table[n] == b ==> TableOk(p', n)
    requires b != null && b in p'.arrays ==>
               forall n :: n in p'.table && p'.table[n] != b && p'.table[n] in p'.arrays ==>
                 p'.arrays[p'.table[n]] != p'.arrays[b]
    requires b != null && Bound(p'.bind, b) != {} ==> b.name in p'.table && p'.table[b.name] == b
    ensures Sound(p', index)
  {
    ApartKept(p, p', index, s, b, more);
    ArraysKept(p, p', index, s, b, more);
    forall n | n in p'.table
      ensures TableOk(p', n)
    {
      if p'.table[n] != b {
        OthersTableOk(p, p', index, s, b, more, n);
      }
    }
    forall t | t in p'.bind
      ensures BindOk(p', t)
    {
      assert BindOk(p, t);
      if b != null && p'.bind[t] == b {
        assert t.data in Bound(p'.bind, b);
      }
    }
  }

  // ---------------------------------------------------------------------------
  // The heap
  // ---------------------------------------------------------------------------

  ghost function SinksOf(slots: seq<Option<StompData>>): set<StompData> {
    set i | 0 <= i < |slots| && slots[i].Some? :: slots[i].value
  }

  /** Everything that belongs to the sinks of a binding. */
  ghost function Footprint(slots: seq<Option<StompData>>): set<object>
    reads SinksOf(slots)
  {
    set i, o | 0 <= i < |slots| && slots[i].Some? && o in slots[i].value.Repr :: o
  }

  ghost function Datas(all: set<SessionData>): set<StompData> {
    set s | s in all :: s.data
  }

  ghost function Footprints(all: set<SessionData>): set<object>
    reads Datas(all)
  {
    set s, o | s in all && o in s.data.Repr :: o
  }

  ghost function Arrays(bs: set<Binding>): set<object>
    reads bs
  {
    set b | b in bs :: b.members
  }

  ghost function LinksOf(index: BindingIndex, all: set<SessionData>): Links
    reads index, index.table.Values, Arrays(index.table.Values), all, Datas(all)
  {
    Links(map s | s in all :: s.data.Repr, map s | s in all :: s.bind, index.table,
          map b | b in index.table.Values :: SinksOf(b.members[..]),
          map b | b in index.table.Values :: b.members)
  }

  ghost predicate SlotsOk(b: Binding)
    reads b, b.members
  {
    b.Valid() && Members.Distinct(b.members[..])
  }

  /** The invariant of all sessions. */
  ghost predicate Together(index: BindingIndex, all: set<SessionData>)
    reads index, index.table.Values, Arrays(index.table.Values), all, Datas(all), Footprints(all)
  {
    && (forall s :: s in all ==> s.Valid())
    && (forall n :: n in index.table ==> SlotsOk(index.table[n]))
    && Sound(LinksOf(index, all), index)
  }

  lemma InSinks(slots: seq<Option<StompData>>, d: StompData)
    ensures d in SinksOf(slots) <==> Some(d) in slots
  {
    if Some(d) in slots {
      var i :| 0 <= i < |slots| && slots[i] == Some(d);
    }
  }

  /** What a step of StompSubr needs to know of a binding follows. */
  lemma MemberFollows(index: BindingIndex, all: set<SessionData>, s: SessionData, n: seq<byte>)
    requires Together(index, all) && s in all && n in index.table
    ensures var b := index.table[n];
            s.MemberOk(b) && SlotsOk(b) && SinksOf(b.members[..]) == Bound(LinksOf(index, all).bind, b)
  {
    var b, p := index.table[n], LinksOf(index, all);
    assert TableOk(p, n) && s in p.repr;
    BoundOnce(p, index, s, b);
    InSinks(b.members[..], s.data);
  }

  lemma SlotIsSession(index: BindingIndex, all: set<SessionData>, n: seq<byte>, i: nat) returns (s: SessionData)
    requires Together(index, all) && n in index.table
    requires i < index.table[n].members.Length && index.table[n].members[i].Some?
    ensures s in all && s.bind == index.table[n] && s.data == index.table[n].members[i].value
  {
    var b, p := index.table[n], LinksOf(index, all);
    assert TableOk(p, n);
    InSinks(b.members[..], b.members[..][i].value);
    s :| s in all && s.bind == b && s.data == b.members[i].value;
  }

  lemma SlotsApart(index: BindingIndex, all: set<SessionData>, n: seq<byte>, i: nat, j: nat)
    requires Together(index, all) && n in index.table && i < j < index.table[n].members.Length
    requires index.table[n].members[i].Some? && index.table[n].members[j].Some?
    ensures var d, e := index.table[n].members[i].value, index.table[n].members[j].value;
            d != e && d.Repr !! e.Repr
  {
    var b, p := index.table[n], LinksOf(index, all);
    assert SlotsOk(b) && b.members[..][i] != b.members[..][j];
    var s := SlotIsSession(index, all, n, i);
    var t := SlotIsSession(index, all, n, j);
    assert s in p.repr && t in p.repr;
  }

  lemma SlotIsOwn(index: BindingIndex, all: set<SessionData>, n: seq<byte>, i: nat)
    requires Together(index, all) && n in index.table
    requires i < index.table[n].members.Length && index.table[n].members[i].Some?
    ensures var b := index.table[n];
            var d := b.members[i].value;
            d.Valid() && d.msgq != null && d in d.Repr && b !in d.Repr && b.members !in d.Repr && index !in d.Repr
  {
    var p := LinksOf(index, all);
    assert TableOk(p, n);
    var s := SlotIsSession(index, all, n, i);
    assert s in p.repr && s.Valid();
  }

  /** And what a message needs to know of the members. */
  lemma EnqueueFollows(index: BindingIndex, all: set<SessionData>, n: seq<byte>)
    requires Together(index, all) && n in index.table
    ensures var b := index.table[n]; b.Owns(Footprint(b.members[..])) && index !in Footprint(b.members[..])
  {
    var b := index.table[n];
    assert SlotsOk(b);
    forall i | 0 <= i < b.members.Length && b.members[i].Some?
      ensures var d := b.members[i].value;
              d.Valid() && d.msgq != null && d in d.Repr && b !in d.Repr && b.members !in d.Repr && index !in d.Repr
    {
      SlotIsOwn(index, all, n, i);
    }
    forall i, j | 0 <= i < j < b.members.Length && b.members[i].Some? && b.members[j].Some?
      ensures b.members[i].value != b.members[j].value && b.members[i].value.Repr !! b.members[j].value.Repr
    {
      SlotsApart(index, all, n, i, j);
    }
  }

  /** A message can be pushed unless a session that is bound to the name is stale. */
  lemma NoneStaleCanTake(index: BindingIndex, all: set<SessionData>, n: seq<byte>, m: Message)
    requires Together(index, all) && n in index.table
    requires forall s :: s in all && s.bind == index.table[n] ==> !s.data.stale
    ensures var b, objects := index.table[n], Footprint(index.table[n].members[..]);
            b.Owns(objects) && b.CanTake(m, objects)
  {
    var b := index.table[n];
    EnqueueFollows(index, all, n);
    forall i | 0 <= i < b.members.Length && b.members[i].Some?
      ensures CanPush(b.members[i].value, m)
    {
      var s := SlotIsSession(index, all, n, i);
    }
  }

  // ---------------------------------------------------------------------------
  // Steps
  // ---------------------------------------------------------------------------

  lemma JoinedSinks(before: seq<Option<StompData>>, after: seq<Option<StompData>>, d: StompData)
    requires Joined(before, after, d)
    ensures SinksOf(after) == SinksOf(before) + {d}
  {
    var i :| 0 <= i < |after| && after[i] == Some(d) && (i < |before| ==> before[i] == None)
             && forall j :: 0 <= j < |after| && j != i ==> after[j] == if j < |before| then before[j] else None;
    forall e | e in SinksOf(before)
      ensures e in SinksOf(after)
    {
      var j :| 0 <= j < |before| && before[j] == Some(e);
      assert after[j] == Some(e);
    }
    forall e | e in SinksOf(after)
      ensures e in SinksOf(before) || e == d
    {
      var j :| 0 <= j < |after| && after[j] == Some(e);
      assert j != i ==> before[j] == Some(e);
    }
  }

  lemma PartedSinks(before: seq<Option<StompData>>, after: seq<Option<StompData>>, d: StompData)
    requires Parted(before, after, d)
    ensures SinksOf(after) == SinksOf(before) - {d}
  {
    forall e | e in SinksOf(before) && e != d
      ensures e in SinksOf(after)
    {
      var j :| 0 <= j < |before| && before[j] == Some(e);
      assert after[j] == Some(e);
    }
    forall e | e in SinksOf(after)
      ensures e in SinksOf(before) && e != d
    {
      var j :| 0 <= j < |after| && after[j] == Some(e);
      assert before[j] == Some(e);
    }
  }

  lemma CountIsZero(slots: seq<Option<StompData>>)
    ensures Members.Count(slots) == 0 <==> SinksOf(slots) == {}
  {
    Members.CountBounds(slots);
    if SinksOf(slots) == {} {
      forall i | 0 <= i < |slots|
        ensures slots[i].None?
      {
        if slots[i].Some? {
          InSinks(slots, slots[i].value);
        }
      }
    }
  }

  /** The invariant, object by object. */
  lemma Separate(index: BindingIndex, all: set<SessionData>)
    requires Together(index, all)
    ensures forall s :: s in all ==> s.data in s.data.Repr && index !in s.data.Repr
    ensures forall s, t :: s in all && t in all ==> s !in t.data.Repr && (s != t ==> s.data.Repr !! t.data.Repr)
    ensures forall s, n :: s in all && n in index.table ==> s.Apart(index.table[n])
    ensures forall n :: n in index.table ==> index.table[n].name == n
    ensures forall m, n :: m in index.table && n in index.table && m != n ==>
                             index.table[m].members != index.table[n].members
  {
    var p := LinksOf(index, all);
    forall s, t | s in all && t in all
      ensures s !in t.data.Repr && index !in t.data.Repr && (s != t ==> s.data.Repr !! t.data.Repr)
    {
      assert s in p.repr && t in p.repr;
    }
    forall n | n in index.table
      ensures index.table[n].name == n && forall s :: s in all ==> s.Apart(index.table[n])
    {
      assert TableOk(p, n);
      forall s | s in all
        ensures s.Apart(index.table[n])
      {
        assert s in p.repr;
      }
    }
    forall m, n | m in index.table && n in index.table && m != n
      ensures index.table[m].members != index.table[n].members
    {
      assert TableOk(p, m) && TableOk(p, n);
    }
  }

  /** The session was bound to b, or is now, or nothing has changed. */
  ghost predicate Moves(was: Binding?, now: Binding?, b: Binding?) {
    now == was || (now == b && was == null) || (now == null && was == b)
  }

  /** These sessions, and all bindings but b, are valid and as the links `p` say. */
  ghost predicate Kept(p: Links, ss: set<SessionData>, b: Binding?)
    reads ss, Datas(ss), Footprints(ss), p.table.Values - {b}, Arrays(p.table.Values - {b})
  {
    && (forall s :: s in ss ==>
          s in p.repr && s in p.bind && s.Valid() && s.data.Repr == p.repr[s] && s.bind == p.bind[s])
    && (forall n :: n in p.table && p.table[n] != b ==>
          var c := p.table[n];
          && c in p.sinks && c in p.arrays
          && SlotsOk(c) && SinksOf(c.members[..]) == p.sinks[c] && c.members == p.arrays[c])
  }

  /** A step that concerns session s alone. */
  lemma SessionStep(index: BindingIndex, all: set<SessionData>, p: Links, s: SessionData, more: set<object>)
    requires Sound(p, index) && AreNew(p, index, more) && p.repr.Keys == all && s in all && index.table == p.table
    requires s.Valid() && s.data.Repr <= p.repr[s] + more && s.bind == p.bind[s]
    requires Kept(p, all - {s}, null)
    ensures Together(index, all)
  {
    LinksKept(p, LinksOf(index, all), index, s, null, more);
  }

  /** Binding b is in the table under its name if it has members, and everything else is as in `p`. */
  ghost predicate Retabled(p: Links, index: BindingIndex, b: Binding)
    reads index, b, b.members
  {
    && (b.name in p.table ==> p.table[b.name] == b)
    && index.table == if SinksOf(b.members[..]) == {} then p.table - {b.name} else p.table[b.name := b]
  }

  lemma BindingTouches(index: BindingIndex, all: set<SessionData>, p: Links, s: SessionData, b: Binding,
                       more: set<object>)
    requires Sound(p, index) && p.repr.Keys == all && s in all && Kept(p, all - {s}, b) && Retabled(p, index, b)
    requires s.Valid() && s.data.Repr <= p.repr[s] + more && Moves(p.bind[s], s.bind, b)
    ensures OnlyTouches(p, LinksOf(index, all), s, b, more)
    ensures forall n :: n in index.table && index.table[n] == b ==> n == b.name
  {
    forall n | n in p.table
      ensures p.table[n].name == n
    {
      assert TableOk(p, n);
    }
  }

  lemma BindingFits(index: BindingIndex, all: set<SessionData>, b: Binding)
    requires SinksOf(b.members[..]) == Bound(LinksOf(index, all).bind, b) && (forall t :: t in all ==> t.Apart(b))
    requires b.name in index.table && index.table[b.name] == b && SinksOf(b.members[..]) != {}
    ensures TableOk(LinksOf(index, all), b.name)
  {
    var p' := LinksOf(index, all);
    assert forall t :: t in p'.repr ==> t.Apart(b);
  }

  lemma ValidNow(index: BindingIndex, all: set<SessionData>, p: Links, s: SessionData, b: Binding)
    requires s in all && s.Valid() && SlotsOk(b) && Kept(p, all - {s}, b) && Retabled(p, index, b)
    ensures forall t :: t in all ==> t.Valid()
    ensures forall n :: n in index.table ==> SlotsOk(index.table[n])
  {
  }

  /** A step that concerns session s and binding b. */
  lemma BindingStep(index: BindingIndex, all: set<SessionData>, p: Links, s: SessionData, b: Binding, more: set<object>)
    requires Sound(p, index) && AreNew(p, index, more) && p.repr.Keys == all && s in all
    requires s.Valid() && s.data.Repr <= p.repr[s] + more && Moves(p.bind[s], s.bind, b)
    requires Kept(p, all - {s}, b) && Retabled(p, index, b)
    requires SlotsOk(b) && SinksOf(b.members[..]) == Bound(LinksOf(index, all).bind, b)
    requires forall t :: t in all ==> t.Apart(b)
    requires forall n :: n in p.table && p.table[n] != b ==> p.table[n].members != b.members
    ensures Together(index, all)
  {
    BindingTouches(index, all, p, s, b, more);
    ValidNow(index, all, p, s, b);
    if SinksOf(b.members[..]) != {} {
      BindingFits(index, all, b);
    }
    LinksKept(p, LinksOf(index, all), index, s, b, more);
  }

  /** The sessions bound to b when only s has moved. */
  lemma BoundMoves(p: Links, p': Links, index: BindingIndex, s: SessionData, b: Binding)
    requires Sound(p, index) && s in p.bind && p'.bind.Keys == p.bind.Keys
    requires forall t :: t in p.bind && t != s ==> p'.bind[t] == p.bind[t]
    ensures Bound(p'.bind, b) ==
            if p'.bind[s] == b then Bound(p.bind, b) + {s.data}
            else if p.bind[s] == b then Bound(p.bind, b) - {s.data} else Bound(p.bind, b)
  {
    BoundOnce(p, index, s, b);
    forall t | t in p.bind && t.data == s.data
      ensures t == s
    {
      assert s.data in p.repr[t] * p.repr[s];
    }
    forall d | d in Bound(p'.bind, b) && d != s.data
      ensures d in Bound(p.bind, b)
    {
      var t :| t in p'.bind && p'.bind[t] == b && t.data == d;
    }
    forall d | d in Bound(p.bind, b) && d != s.data
      ensures d in Bound(p'.bind, b)
    {
      var t :| t in p.bind && p.bind[t] == b && t.data == d;
    }
  }

  /** The same on the heap. */
  lemma BoundNow(index: BindingIndex, all: set<SessionData>, p: Links, s: SessionData, b: Binding)
    requires Sound(p, index) && p.repr.Keys == all && s in all && Kept(p, all - {s}, b)
    ensures Bound(LinksOf(index, all).bind, b) ==
            if s.bind == b then Bound(p.bind, b) + {s.data}
            else if p.bind[s] == b then Bound(p.bind, b) - {s.data} else Bound(p.bind, b)
  {
    BoundMoves(p, LinksOf(index, all), index, s, b);
  }

  lemma SoundWith(p: Links, p': Links, index: BindingIndex, s: SessionData)
    requires Sound(p, index) && s !in p.repr && s in p'.repr && s in p'.bind
    requires p' == p.(repr := p.repr[s := p'.repr[s]], bind := p.bind[s := null])
    requires s.data in p'.repr[s] && s !in p'.repr[s] && AreNew(p, index, p'.repr[s] + {s})
    ensures Sound(p', index)
  {
    forall n | n in p'.table
      ensures TableOk(p', n)
    {
      assert TableOk(p, n);
      assert Bound(p'.bind, p'.table[n]) == Bound(p.bind, p'.table[n]);
    }
    forall t | t in p'.bind
      ensures BindOk(p', t)
    {
      assert t in p.bind ==> BindOk(p, t);
    }
  }

  lemma SoundWithout(p: Links, p': Links, index: BindingIndex, s: SessionData)
    requires Sound(p, index) && s in p.bind && p.bind[s] == null
    requires p' == p.(repr := p.repr - {s}, bind := p.bind - {s})
    ensures Sound(p', index)
  {
    forall n | n in p'.table
      ensures TableOk(p', n)
    {
      assert TableOk(p, n);
      assert Bound(p'.bind, p'.table[n]) == Bound(p.bind, p'.table[n]);
    }
    forall t | t in p'.bind
      ensures BindOk(p', t)
    {
      assert BindOk(p, t);
    }
  }

  /** The table and the slots are as the links say. */
  lemma SinksSame(index: BindingIndex, all: set<SessionData>, p: Links)
    requires index.table == p.table && p.sinks.Keys == p.table.Values == p.arrays.Keys
    requires forall n :: n in p.table ==>
               var c := p.table[n];
               c in p.sinks && c in p.arrays && SinksOf(c.members[..]) == p.sinks[c] && c.members == p.arrays[c]
    ensures LinksOf(index, all).sinks == p.sinks && LinksOf(index, all).arrays == p.arrays
  {
    var p' := LinksOf(index, all);
    forall c | c in p.table.Values
      ensures c in p.sinks && c in p.arrays && p'.sinks[c] == p.sinks[c] && p'.arrays[c] == p.arrays[c]
    {
      var n :| n in p.table && p.table[n] == c;
    }
  }

  lemma LinksWith(index: BindingIndex, all: set<SessionData>, p: Links, s: SessionData)
    requires p.repr.Keys == p.bind.Keys == all && p.sinks.Keys == p.table.Values == p.arrays.Keys
    requires Kept(p, all, null) && index.table == p.table && s !in all && s.bind == null
    ensures LinksOf(index, all + {s}) == p.(repr := p.repr[s := s.data.Repr], bind := p.bind[s := null])
  {
    var p' := LinksOf(index, all + {s});
    SinksSame(index, all + {s}, p);
    assert p'.repr == p.repr[s := p'.repr[s]] && p'.bind == p.bind[s := null];
  }

  /** A session that is bound to nothing comes... */
  lemma SessionAdded(index: BindingIndex, all: set<SessionData>, p: Links, s: SessionData)
    requires Sound(p, index) && p.repr.Keys == all && p.sinks.Keys == p.table.Values == p.arrays.Keys
    requires Kept(p, all, null) && index.table == p.table
    requires s !in all && s.Valid() && s.bind == null && AreNew(p, index, s.data.Repr + {s})
    ensures Together(index, all + {s})
  {
    LinksWith(index, all, p, s);
    SoundWith(p, LinksOf(index, all + {s}), index, s);
  }

  /** ...and goes. */
  lemma SessionRemoved(index: BindingIndex, all: set<SessionData>, s: SessionData)
    requires Together(index, all) && s in all && s.bind == null
    ensures Together(index, all - {s})
  {
    var p, p' := LinksOf(index, all), LinksOf(index, all - {s});
    assert p'.repr == p.repr - {s} && p'.bind == p.bind - {s};
    SoundWithout(p, p', index, s);
  }

  // ---------------------------------------------------------------------------
  // The steps of stomp_subr.c
  // ---------------------------------------------------------------------------

  method ConnectAlone(index: BindingIndex, ghost p: Links, ghost all: set<SessionData>) returns (s: SessionData)
    requires Kept(p, all, null)
    ensures Kept(p, all, null) && fresh(s) && fresh(s.data.Repr) && AreNew(p, index, s.data.Repr + {s})
    ensures s.Valid() && s.bind == null && s.data.msgq == null && s.data.slen == 0
  {
    s := new SessionData();
  }

  /** stomp_create_session for a new connection. */
  method Connect(index: BindingIndex, ghost all: set<SessionData>) returns (s: SessionData)
    requires Together(index, all)
    ensures Together(index, all + {s}) && fresh(s) && fresh(s.data.Repr)
    ensures s.bind == null && s.data.msgq == null && s.data.slen == 0
  {
    ghost var p := LinksOf(index, all);
    s := ConnectAlone(index, p, all);
    SessionAdded(index, all, p, s);
  }

  /** stomp_msg_output. */
  method Output(index: BindingIndex, s: SessionData, n: int, ghost all: set<SessionData>) returns (rc: int)
    requires Together(index, all) && s in all && (s.data.msgq != null ==> !s.data.stale)
    modifies s.data.Repr
    ensures Together(index, all)
    ensures s.data.msgq == old(s.data.msgq) && s.data.stale == old(s.data.stale)
    ensures s.data.msgq == null ==> rc == -1 && s.data.sent == old(s.data.sent) && s.data.slen == old(s.data.slen)
    ensures s.data.msgq != null ==>
              && s.data.View() == Senders.SendResume(old(s.data.View()), n).0
              && rc == Senders.SendResume(old(s.data.View()), n).1
  {
    Separate(index, all);
    ghost var p, repr := LinksOf(index, all), s.data.Repr;
    assert Kept(p, all - {s}, null);
    rc := s.data.SendResume(n);
    SessionStep(index, all, p, s, s.data.Repr - repr);
  }

  /** The object that a step is about lies apart from these sessions and bindings. */
  ghost predicate Elsewhere(p: Links, index: BindingIndex, ss: set<SessionData>, s: SessionData, b: Binding)
    reads ss, Datas(ss), b, p.table.Values
  {
    && s !in ss
    && (forall t :: t in ss ==>
          s !in t.data.Repr && index !in t.data.Repr && b !in t.data.Repr && b.members !in t.data.Repr)
    && (forall n :: n in p.table && p.table[n] != b ==> p.table[n].members != b.members)
  }

  /** In front of a step with session s and binding b, which is in the table. */
  ghost predicate Begins(index: BindingIndex, all: set<SessionData>, p: Links, s: SessionData, b: Binding)
    reads index, all, Datas(all), Footprints(all), p.table.Values, Arrays(p.table.Values), b, b.members
  {
    && s in all && s.Valid() && s.MemberOk(b) && SlotsOk(b) && index !in s.data.Repr
    && Kept(p, all - {s}, b) && Elsewhere(p, index, all - {s}, s, b)
  }

  lemma StepBegins(index: BindingIndex, all: set<SessionData>, s: SessionData, n: seq<byte>)
    requires Together(index, all) && s in all && n in index.table
    ensures Begins(index, all, LinksOf(index, all), s, index.table[n])
  {
    Separate(index, all);
    MemberFollows(index, all, s, n);
    var p := LinksOf(index, all);
    forall m | m in p.table
      ensures TableOk(p, m)
    {
    }
  }

  /** What binding_unsubscribe of the session's queue does: its slots become empty, and the binding
      leaves the table exactly with its last member. */
  ghost predicate Left(p: Links, index: BindingIndex, s: SessionData, b: Binding, slots: seq<Option<StompData>>)
    reads index, s, b, b.members
  {
    && s.bind == null && Parted(slots, b.members[..], s.data)
    && index.table == if b.count == 0 then p.table - {b.name} else p.table
  }

  /** The local step leaves the others alone. */
  method LeaveAlone(index: BindingIndex, s: SessionData, ghost p: Links, ghost all: set<SessionData>)
    requires s.bind != null && Begins(index, all, p, s, s.bind) && index.table == p.table
    modifies s`bind, s.bind`count, s.bind.members, index
    ensures Begins(index, all, p, s, old(s.bind))
    ensures Left(p, index, s, old(s.bind), old(s.bind.members[..]))
  {
    s.Leave(index);
  }

  lemma LeftSinks(index: BindingIndex, all: set<SessionData>, p: Links, s: SessionData, b: Binding,
                  slots: seq<Option<StompData>>)
    requires Sound(p, index) && p.repr.Keys == all && s in all && p.bind[s] == b
    requires Kept(p, all - {s}, b) && Left(p, index, s, b, slots) && SlotsOk(b)
    requires b in p.sinks && SinksOf(slots) == p.sinks[b] == Bound(p.bind, b)
    requires b.name in p.table && p.table[b.name] == b
    ensures SinksOf(b.members[..]) == Bound(LinksOf(index, all).bind, b) && Retabled(p, index, b)
  {
    PartedSinks(slots, b.members[..], s.data);
    CountIsZero(b.members[..]);
    BoundNow(index, all, p, s, b);
    assert p.table[b.name := b] == p.table;
  }

  lemma HasLeft(index: BindingIndex, all: set<SessionData>, p: Links, s: SessionData, b: Binding,
                slots: seq<Option<StompData>>)
    requires Begins(index, all, p, s, b) && Left(p, index, s, b, slots)
    requires Sound(p, index) && p.repr.Keys == all && p.bind[s] == b && s.data.Repr == p.repr[s]
    requires b.name in p.table && p.table[b.name] == b && b in p.sinks && SinksOf(slots) == p.sinks[b]
    ensures Together(index, all)
  {
    assert TableOk(p, b.name);
    LeftSinks(index, all, p, s, b, slots);
    BindingStep(index, all, p, s, b, {});
  }

  /** The session has left b: exactly its slots became empty, and b left the table exactly if no other
      member is left. */
  twostate predicate Departed(index: BindingIndex, s: SessionData, b: Binding)
    reads index, s, b, b.members
  {
    && s.bind == null && b.members == old(b.members) && b.round == old(b.round)
    && Parted(old(b.members[..]), b.members[..], s.data)
    && index.table == if b.count == 0 then old(index.table) - {b.name} else old(index.table)
  }

  method Leave(index: BindingIndex, s: SessionData, ghost all: set<SessionData>)
    requires Together(index, all) && s in all && s.bind != null
    modifies s`bind, s.bind`count, s.bind.members, index
    ensures Together(index, all) && Departed(index, s, old(s.bind))
  {
    ghost var p, b, slots := LinksOf(index, all), s.bind, s.bind.members[..];
    assert BindOk(p, s);
    StepBegins(index, all, s, b.name);
    LeaveAlone(index, s, p, all);
    HasLeft(index, all, p, s, b, slots);
  }

  /** What binding_subscribe of the session's queue does: it takes one empty slot. */
  ghost predicate Entered(p: Links, index: BindingIndex, s: SessionData, b: Binding, slots: seq<Option<StompData>>)
    reads index, s, b, b.members
  {
    s.bind == b && Joined(slots, b.members[..], s.data) && index.table == p.table[b.name := b]
  }

  method JoinAlone(index: BindingIndex, s: SessionData, b: Binding, ghost p: Links, ghost all: set<SessionData>)
    requires Begins(index, all, p, s, b) && s.bind == null && s.data.msgq != null
    requires index.table == p.table[b.name := b]
    modifies s`bind, b, b.members
    ensures Begins(index, all, p, s, b) && Entered(p, index, s, b, old(b.members[..]))
    ensures b.round == old(b.round) && (b.members == old(b.members) || fresh(b.members))
  {
    s.Join(b);
  }

  method JoinNewAlone(index: BindingIndex, s: SessionData, dest: seq<byte>, ghost p: Links,
                      ghost all: set<SessionData>)
    requires s in all && s.Valid() && s.bind == null && s.data.msgq != null && index !in s.data.Repr
    requires Kept(p, all - {s}, null) && index.table == p.table
    requires forall t :: t in all && t != s ==> s !in t.data.Repr && index !in t.data.Repr
    modifies s`bind, index
    ensures s.bind != null && fresh(s.bind) && fresh(s.bind.members) && Begins(index, all, p, s, s.bind)
    ensures Entered(p, index, s, s.bind, Members.Blank(Members.INITIAL_SLOTS))
    ensures s.bind.name == dest && (s.bind.isQueue <==> Brokers.QUEUE_PREFIX <= dest)
    ensures forall t :: t in p.bind ==> p.bind[t] != s.bind
    ensures s.bind !in p.sinks
  {
    s.JoinNew(index, dest);
  }

  lemma EnteredSinks(index: BindingIndex, all: set<SessionData>, p: Links, s: SessionData, b: Binding,
                     slots: seq<Option<StompData>>)
    requires Sound(p, index) && p.repr.Keys == all && s in all && p.bind[s] == null
    requires Kept(p, all - {s}, b) && Entered(p, index, s, b, slots) && SlotsOk(b)
    requires SinksOf(slots) == Bound(p.bind, b) && (b.name in p.table ==> p.table[b.name] == b)
    ensures SinksOf(b.members[..]) == Bound(LinksOf(index, all).bind, b) && Retabled(p, index, b)
  {
    JoinedSinks(slots, b.members[..], s.data);
    BoundNow(index, all, p, s, b);
  }

  lemma HasEntered(index: BindingIndex, all: set<SessionData>, p: Links, s: SessionData, b: Binding,
                   slots: seq<Option<StompData>>)
    requires Begins(index, all, p, s, b) && Entered(p, index, s, b, slots)
    requires Sound(p, index) && p.repr.Keys == all && p.bind[s] == null && s.data.Repr == p.repr[s]
    requires SinksOf(slots) == Bound(p.bind, b) && (b.name in p.table ==> p.table[b.name] == b)
    ensures Together(index, all)
  {
    EnteredSinks(index, all, p, s, b, slots);
    BindingStep(index, all, p, s, b, {});
  }

  /** The session has taken an empty slot of the binding of that name, which was in the table or is new
      there. */
  twostate predicate Arrived(index: BindingIndex, s: SessionData, dest: seq<byte>)
    reads index, s, s.bind, if s.bind != null then {s.bind.members} else {}
  {
    && s.bind != null && index.table == old(index.table)[dest := s.bind]
    && if dest in old(index.table) then
         && s.bind == old(index.table)[dest] && s.bind.round == old(index.table[dest].round)
         && (s.bind.members == old(index.table[dest].members) || fresh(s.bind.members))
         && Joined(old(index.table[dest].members[..]), s.bind.members[..], s.data)
       else
         && fresh(s.bind) && fresh(s.bind.members)
         && s.bind.name == dest && (s.bind.isQueue <==> Brokers.QUEUE_PREFIX <= dest)
         && Joined(Members.Blank(Members.INITIAL_SLOTS), s.bind.members[..], s.data)
  }

  method Join(index: BindingIndex, s: SessionData, dest: seq<byte>, ghost all: set<SessionData>)
    requires Together(index, all) && s in all && s.bind == null && s.data.msgq != null && dest in index.table
    modifies s`bind, index.table[dest], index.table[dest].members
    ensures Together(index, all) && Arrived(index, s, dest)
  {
    ghost var p, b, slots := LinksOf(index, all), index.table[dest], index.table[dest].members[..];
    assert TableOk(p, dest) && p.table[dest := b] == p.table;
    StepBegins(index, all, s, dest);
    JoinAlone(index, s, index.table[dest], p, all);
    HasEntered(index, all, p, s, b, slots);
  }

  lemma BlankSinks(n: nat)
    ensures SinksOf(Members.Blank<StompData>(n)) == {}
  {
  }

  method JoinNew(index: BindingIndex, s: SessionData, dest: seq<byte>, ghost all: set<SessionData>)
    requires Together(index, all) && s in all && s.bind == null && s.data.msgq != null && dest !in index.table
    modifies s`bind, index
    ensures Together(index, all) && Arrived(index, s, dest)
  {
    Separate(index, all);
    ghost var p := LinksOf(index, all);
    JoinNewAlone(index, s, dest, p, all);
    BlankSinks(Members.INITIAL_SLOTS);
    HasEntered(index, all, p, s, s.bind, Members.Blank(Members.INITIAL_SLOTS));
  }

  /** The session has the queue that it had, or a new one. */
  twostate predicate HasQueue(s: SessionData)
    reads s.data, s.data.msgq
  {
    if old(s.data.msgq) != null then s.data.msgq == old(s.data.msgq)
    else s.data.msgq != null && fresh(s.data.msgq) && s.data.msgq.view == Create(Brokers.QUEUE_SIZE)
  }

  method EnsureQueue(index: BindingIndex, s: SessionData, ghost all: set<SessionData>)
    requires Together(index, all) && s in all
    modifies s.data
    ensures Together(index, all) && HasQueue(s)
    ensures s.data.slen == old(s.data.slen) && s.data.stale == old(s.data.stale)
  {
    if s.data.msgq == null {
      Separate(index, all);
      ghost var p, repr := LinksOf(index, all), s.data.Repr;
      assert Kept(p, all - {s}, null);
      s.data.CreateQueue(Brokers.QUEUE_SIZE);
      SessionStep(index, all, p, s, s.data.Repr - repr);
    }
  }

  method DestroyQueue(index: BindingIndex, s: SessionData, ghost all: set<SessionData>)
    requires Together(index, all) && s in all && s.data.msgq != null && s.bind == null
    modifies s.data
    ensures Together(index, all) && s.data.msgq == null
    ensures s.data.slen == old(s.data.slen) && (s.data.stale <==> s.data.slen > 0)
  {
    Separate(index, all);
    ghost var p := LinksOf(index, all);
    assert Kept(p, all - {s}, null);
    s.data.DestroyQueue();
    SessionStep(index, all, p, s, {});
  }

  /** The second half of stomp_subscribe, for a session with a queue. */
  method Enter(index: BindingIndex, s: SessionData, dest: seq<byte>, ghost all: set<SessionData>) returns (rc: int)
    requires Together(index, all) && s in all && s.bind == null && s.data.msgq != null
    modifies s`bind, s.data, index,
             if dest in index.table then {index.table[dest], index.table[dest].members} else {}
    ensures Together(index, all) && s.data.slen == old(s.data.slen)
    ensures rc == if dest in old(index.table) || Brokers.GoodName(dest) then 0 else -1
    ensures rc != 0 ==>
              && s.bind == null && s.data.msgq == null && (s.data.stale <==> s.data.slen > 0)
              && index.table == old(index.table)
    ensures rc == 0 ==>
              && s.data.msgq == old(s.data.msgq) && s.data.msgq.view == old(s.data.msgq.view)
              && s.data.stale == old(s.data.stale) && Arrived(index, s, dest)
  {
    rc := 0;
    if dest in index.table {
      Join(index, s, dest, all);
    } else if Brokers.GoodName(dest) {
      JoinNew(index, s, dest, all);
    } else {
      DestroyQueue(index, s, all);
      rc := -1;
    }
  }

  /** stomp_subscribe for a session that is not bound. */
  method SubscribeUnbound(index: BindingIndex, s: SessionData, dest: seq<byte>, ghost all: set<SessionData>)
    returns (rc: int)
    requires Together(index, all) && s in all && s.bind == null
    modifies s`bind, s.data, index,
             if dest in index.table then {index.table[dest], index.table[dest].members} else {}
    ensures Together(index, all) && s.data.slen == old(s.data.slen)
    ensures rc == if dest in old(index.table) || Brokers.GoodName(dest) then 0 else -1
    ensures rc == 0 ==> HasQueue(s) && s.data.stale == old(s.data.stale) && Arrived(index, s, dest)
    ensures rc != 0 ==>
              && s.bind == null && s.data.msgq == null && (s.data.stale <==> s.data.slen > 0)
              && index.table == old(index.table)
  {
    EnsureQueue(index, s, all);
    rc := Enter(index, s, dest, all);
  }

  /** stomp_subscribe: it fails exactly for a session that is bound, or for a name that is not in the
      table and neither a queue nor a topic. Then an unbound session has lost its queue, and is stale
      if part of a message was sent; otherwise the session has its old queue or a new one, and a slot
      in the binding of that name. */
  method Subscribe(index: BindingIndex, s: SessionData, dest: seq<byte>, ghost all: set<SessionData>)
    returns (rc: int)
    requires Together(index, all) && s in all
    modifies s`bind, s.data, index,
             if dest in index.table then {index.table[dest], index.table[dest].members} else {}
    ensures Together(index, all) && s.data.slen == old(s.data.slen)
    ensures rc == 0 <==> old(s.bind) == null && (dest in old(index.table) || Brokers.GoodName(dest))
    ensures rc != 0 ==> rc == -1 && index.table == old(index.table) && s.bind == old(s.bind)
    ensures rc != 0 && old(s.bind) != null ==> s.data.msgq == old(s.data.msgq)
    ensures rc != 0 && old(s.bind) == null ==> s.data.msgq == null && (s.data.stale <==> s.data.slen > 0)
    ensures rc == 0 ==> HasQueue(s) && s.data.stale == old(s.data.stale) && Arrived(index, s, dest)
  {
    rc := -1;
    if s.bind == null {
      rc := SubscribeUnbound(index, s, dest, all);
    }
  }

  lemma BoundByName(index: BindingIndex, all: set<SessionData>, s: SessionData, dest: seq<byte>)
    requires Together(index, all) && s in all
    ensures s.bind != null && s.bind.name == dest <==> dest in index.table && s.bind == index.table[dest]
  {
    var p := LinksOf(index, all);
    assert BindOk(p, s) && (dest in p.table ==> TableOk(p, dest));
  }

  /** stomp_unsubscribe: a session that is bound to the name leaves its binding and keeps its queue;
      other names are silently ignored. */
  method Unsubscribe(index: BindingIndex, s: SessionData, dest: seq<byte>, ghost all: set<SessionData>)
    returns (rc: int)
    requires Together(index, all) && s in all
    modifies s`bind, index, if s.bind != null then {s.bind, s.bind.members} else {}
    ensures Together(index, all) && rc == 0 && s.data.msgq == old(s.data.msgq)
    ensures if old(s.bind) != null && old(s.bind).name == dest then Departed(index, s, old(s.bind))
            else s.bind == old(s.bind) && index.table == old(index.table)
  {
    rc := 0;
    BoundByName(index, all, s, dest);
    if dest in index.table && s.bind == index.table[dest] {
      Leave(index, s, all);
    }
  }

  /** stomp_destroy_session: afterwards the session is gone from its binding, and the binding from the
      table if it was the only member. */
  method Destroy(index: BindingIndex, s: SessionData, ghost all: set<SessionData>)
    requires Together(index, all) && s in all
    modifies s`bind, s.data, index, if s.bind != null then {s.bind, s.bind.members} else {}
    ensures Together(index, all - {s}) && s.bind == null && s.data.msgq == null
    ensures if old(s.bind) != null then Departed(index, s, old(s.bind)) else index.table == old(index.table)
  {
    Separate(index, all);
    if s.bind != null {
      Leave(index, s, all);
    }
    if s.data.msgq != null {
      DestroyQueue(index, s, all);
    }
    SessionRemoved(index, all, s);
  }

  // ---------------------------------------------------------------------------
  // Messages
  // ---------------------------------------------------------------------------

  /** Some sessions have grown, by objects that are new, and still share nothing. */
  ghost predicate Grew(p: Links, p': Links, more: set<object>) {
    && p'.repr.Keys == p.repr.Keys && p'.bind == p.bind && p'.table == p.table
    && p'.sinks == p.sinks && p'.arrays == p.arrays
    && (forall s :: s in p.repr ==> s.data in p'.repr[s] && p'.repr[s] <= p.repr[s] + more)
    && (forall s, t :: s in p.repr && t in p.repr && s != t ==> p'.repr[s] !! p'.repr[t])
  }

  lemma GrowthKept(p: Links, p': Links, index: BindingIndex, more: set<object>)
    requires Sound(p, index) && AreNew(p, index, more) && Grew(p, p', more)
    ensures Sound(p', index)
  {
    forall n | n in p'.table
      ensures TableOk(p', n)
    {
      assert TableOk(p, n);
    }
    forall t | t in p'.bind
      ensures BindOk(p', t)
    {
      assert BindOk(p, t);
    }
  }

  /** The sessions that are not bound to b. */
  ghost function Unbound(all: set<SessionData>, b: Binding): set<SessionData>
    reads all
  {
    set s | s in all && s.bind != b
  }

  /** In front of a push to the members of b, whose footprint is `objects`. */
  ghost predicate PushBegins(index: BindingIndex, all: set<SessionData>, p: Links, rest: set<SessionData>, b: Binding,
                             objects: set<object>)
    reads index, all, rest, Datas(rest), Footprints(rest), p.table.Values, Arrays(p.table.Values), b, b.members, objects
  {
    && b.Owns(objects) && index !in objects && Kept(p, rest, b) && index.table == p.table && rest <= all
    && (forall t :: t in all ==> t !in objects && t in p.bind && t.bind == p.bind[t])
    && (forall t :: t in rest ==> t.data.Repr !! objects && b !in t.data.Repr && b.members !in t.data.Repr)
    && (forall n :: n in p.table && p.table[n] != b ==> p.table[n] !in objects && p.table[n].members !in objects)
  }

  lemma PushesApart(index: BindingIndex, all: set<SessionData>, n: seq<byte>, i: nat)
    requires Together(index, all) && n in index.table
    requires i < index.table[n].members.Length && index.table[n].members[i].Some?
    ensures var b, d := index.table[n], index.table[n].members[i].value;
            && (forall t :: t in all ==> t !in d.Repr)
            && (forall t :: t in Unbound(all, b) ==> t.data.Repr !! d.Repr)
            && (forall m :: m in index.table ==> index.table[m] !in d.Repr && index.table[m].members !in d.Repr)
  {
    Separate(index, all);
    var s := SlotIsSession(index, all, n, i);
    assert forall m :: m in index.table ==> s.Apart(index.table[m]);
  }

  lemma FootprintApart(index: BindingIndex, all: set<SessionData>, n: seq<byte>)
    requires Together(index, all) && n in index.table
    ensures var objects := Footprint(index.table[n].members[..]);
            && (forall t :: t in all ==> t !in objects)
            && (forall t :: t in Unbound(all, index.table[n]) ==> t.data.Repr !! objects)
            && (forall m :: m in index.table ==> index.table[m] !in objects && index.table[m].members !in objects)
  {
    var b := index.table[n];
    forall i | 0 <= i < b.members.Length && b.members[i].Some?
      ensures var d := b.members[i].value;
              && (forall t :: t in all ==> t !in d.Repr)
              && (forall t :: t in Unbound(all, b) ==> t.data.Repr !! d.Repr)
              && (forall m :: m in index.table ==> index.table[m] !in d.Repr && index.table[m].members !in d.Repr)
    {
      PushesApart(index, all, n, i);
    }
  }

  lemma KeptNow(index: BindingIndex, all: set<SessionData>, b: Binding)
    requires Together(index, all)
    ensures Kept(LinksOf(index, all), Unbound(all, b), b)
    ensures forall t, n :: t in all && n in index.table ==> t.Apart(index.table[n])
  {
    Separate(index, all);
    var p := LinksOf(index, all);
    forall m | m in p.table
      ensures TableOk(p, m)
    {
    }
  }

  lemma StepPushes(index: BindingIndex, all: set<SessionData>, n: seq<byte>)
    requires Together(index, all) && n in index.table
    ensures var b := index.table[n];
            && PushBegins(index, all, LinksOf(index, all), Unbound(all, b), b, Footprint(b.members[..]))
            && SlotsOk(b)
  {
    EnqueueFollows(index, all, n);
    FootprintApart(index, all, n);
    KeptNow(index, all, index.table[n]);
  }

  /** Behind it: the other sessions and bindings are as they were. */
  ghost predicate PushEnds(index: BindingIndex, all: set<SessionData>, p: Links, rest: set<SessionData>, b: Binding,
                           past: seq<Past>, objects: set<object>, more: set<object>)
    reads index, all, rest, Datas(rest), Footprints(rest), p.table.Values, Arrays(p.table.Values), b, b.members, more
  {
    && SlotsOk(b) && index.table == p.table && Kept(p, rest, b) && |past| == b.members.Length
    && Inside(b.members[..], more) && Bindings.Apart(b.members[..], more) && AreNew(p, index, more - objects)
    && (forall i :: 0 <= i < b.members.Length && b.members[i].Some? ==>
          b.members[i].value.Repr <= past[i].repr + (more - objects))
    && (forall t :: t in all ==> t in p.bind && t.bind == p.bind[t])
    && (forall t :: t in rest ==> t.data.Repr !! more)
  }

  method PushAlone(index: BindingIndex, b: Binding, iov: seq<seq<byte>>, net: seq<int>, ghost all: set<SessionData>,
                   ghost p: Links, ghost rest: set<SessionData>, ghost objects: set<object>)
    returns (ghost objects': set<object>)
    requires PushBegins(index, all, p, rest, b, objects) && SlotsOk(b)
    requires b.CanTake(Flatten(iov), objects) && |Flatten(iov)| < 0x8000_0000
    modifies b, b.Targets(objects)
    ensures PushEnds(index, all, p, rest, b, old(Pasts(b.members[..], objects)), objects, objects')
    ensures b.members == old(b.members) && b.members[..] == old(b.members[..]) && b.count == old(b.count)
    ensures b.round == if b.isQueue then old(b.Turns()).1 else old(b.round)
    ensures FanOut(b.members[..], old(Pasts(b.members[..], objects)), old(b.Range()).0, old(b.Range()).1, Flatten(iov),
                   net, objects, objects')
  {
    var ok;
    ok, objects' := b.PushMsg(iov, net, objects);
  }

  /** What belonged to the members in front of the push. */
  ghost predicate PastOf(p: Links, slots: seq<Option<StompData>>, past: seq<Past>) {
    |past| == |slots| &&
    forall s, i :: s in p.repr && 0 <= i < |slots| && slots[i] == Some(s.data) ==> past[i].repr == p.repr[s]
  }

  /** The links in front of a push to the members of b. */
  ghost predicate Plan(p: Links, index: BindingIndex, all: set<SessionData>, b: Binding, members: object,
                       slots: seq<Option<StompData>>, past: seq<Past>)
  {
    && Sound(p, index) && p.repr.Keys == all && p.sinks.Keys == p.table.Values == p.arrays.Keys
    && b.name in p.table && p.table[b.name] == b && b in p.sinks && b in p.arrays && p.arrays[b] == members
    && SinksOf(slots) == p.sinks[b] == Bound(p.bind, b) && PastOf(p, slots, past)
  }

  lemma StepPlanned(index: BindingIndex, all: set<SessionData>, n: seq<byte>, objects: set<object>)
    requires Together(index, all) && n in index.table && Inside(index.table[n].members[..], objects)
    ensures var b := index.table[n];
            Plan(LinksOf(index, all), index, all, b, b.members, b.members[..], Pasts(b.members[..], objects))
  {
    assert TableOk(LinksOf(index, all), n);
  }

  lemma SlotOf(p: Links, s: SessionData, b: Binding) returns (i: nat)
    requires s in p.bind && p.bind[s] == b && SinksOf(b.members[..]) == Bound(p.bind, b)
    ensures i < b.members.Length && b.members[i] == Some(s.data)
  {
    assert s.data in SinksOf(b.members[..]);
    i :| 0 <= i < b.members.Length && b.members[..][i] == Some(s.data);
  }

  lemma PushedGrew(index: BindingIndex, all: set<SessionData>, p: Links, b: Binding, past: seq<Past>,
                   objects: set<object>, more: set<object>)
    requires PushEnds(index, all, p, Unbound(all, b), b, past, objects, more)
    requires Plan(p, index, all, b, b.members, b.members[..], past)
    ensures forall s :: s in all ==> s.Valid() && s.data.Repr <= p.repr[s] + (more - objects)
    ensures forall s, t :: s in all && t in all && s != t ==> s.data.Repr !! t.data.Repr
  {
    forall s | s in all && s.bind == b
      ensures s.Valid() && s.data.Repr <= p.repr[s] + (more - objects) && s.data in more && s.data.Repr <= more
    {
      var i := SlotOf(p, s, b);
      assert s !in p.repr[s];
    }
    forall s, t | s in all && t in all && s != t && s.bind == b && t.bind == b
      ensures s.data.Repr !! t.data.Repr
    {
      var i := SlotOf(p, s, b);
      var j := SlotOf(p, t, b);
      assert s.data in p.repr[s] && t.data in p.repr[t] && p.repr[s] !! p.repr[t];
    }
  }

  lemma LinksPushed(index: BindingIndex, all: set<SessionData>, p: Links, b: Binding, past: seq<Past>,
                    objects: set<object>, more: set<object>)
    requires PushEnds(index, all, p, Unbound(all, b), b, past, objects, more)
    requires Plan(p, index, all, b, b.members, b.members[..], past)
    ensures var p' := LinksOf(index, all);
            p'.table == p.table && p'.sinks == p.sinks && p'.arrays == p.arrays && p'.bind == p.bind
  {
    SinksSame(index, all, p);
  }

  lemma HasPushed(index: BindingIndex, all: set<SessionData>, p: Links, b: Binding, past: seq<Past>,
                  objects: set<object>, more: set<object>)
    requires PushEnds(index, all, p, Unbound(all, b), b, past, objects, more)
    requires Plan(p, index, all, b, b.members, b.members[..], past)
    ensures Together(index, all)
  {
    PushedGrew(index, all, p, b, past, objects, more);
    var p' := LinksOf(index, all);
    LinksPushed(index, all, p, b, past, objects, more);
    GrowthKept(p, p', index, more - objects);
  }

  /** stomp_enqueue: a message for a name that nobody is bound to is discarded; otherwise the session
      whose turn it is takes it, or all that are bound to the name do, and nobody else changes. */
  method Enqueue(index: BindingIndex, dest: seq<byte>, iov: seq<seq<byte>>, net: seq<int>,
                 ghost all: set<SessionData>, ghost objects: set<object>)
    returns (rc: int, ghost objects': set<object>)
    requires Together(index, all) && |Flatten(iov)| < 0x8000_0000
    requires dest in index.table ==>
               var b := index.table[dest];
               objects == Footprint(b.members[..]) && b.Owns(objects) && b.CanTake(Flatten(iov), objects)
    modifies if dest in index.table then {index.table[dest]} + index.table[dest].Targets(objects) else {}
    ensures rc == 0 && Together(index, all) && index.table == old(index.table)
    ensures dest in index.table ==>
              var b := index.table[dest];
              && b.members[..] == old(index.table[dest].members[..]) && b.count == old(index.table[dest].count)
              && b.round == (if b.isQueue then old(index.table[dest].Turns()).1 else old(index.table[dest].round))
              && FanOut(b.members[..], old(Pasts(index.table[dest].members[..], objects)),
                        old(index.table[dest].Range()).0, old(index.table[dest].Range()).1, Flatten(iov), net,
                        objects, objects')
  {
    rc, objects' := 0, {};
    if dest in index.table {
      ghost var p, b := LinksOf(index, all), index.table[dest];
      StepPushes(index, all, dest);
      ghost var past := Pasts(b.members[..], objects);
      StepPlanned(index, all, dest, objects);
      objects' := PushAlone(index, index.table[dest], iov, net, all, p, Unbound(all, b), objects);
      HasPushed(index, all, p, b, past, objects, objects');
    }
  }
}
