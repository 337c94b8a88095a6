/**
 * The steps of stomp/stomp_subr.c on the heap: a session points to its queue and its binding, the
 * binding's slots point back to the session, and the table finds the binding by its name.
 */
module StompSubr {
  import opened Bytes
  import opened StompDatas
  import opened Bindings
  import Brokers
  import Members

  /** BindingHash, as the map that the table in BindingHash.dfy implements. */
  class BindingIndex {
    var table: map<seq<byte>, Binding>

    constructor ()
      ensures table == map[]
    {
      table := map[];
    }
  }

  /** `d` took one empty slot, and everybody else kept theirs; slots behind the old ones are empty. */
  ghost predicate Joined(before: seq<Option<StompData>>, after: seq<Option<StompData>>, d: StompData) {
    && |before| <= |after|
    && exists i :: 0 <= i < |after| && after[i] == Some(d) && (i < |before| ==> before[i] == None)
                   && forall j :: 0 <= j < |after| && j != i ==>
                        after[j] == if j < |before| then before[j] else None
  }

  /** The slots of `d`, and no others, became empty. */
  ghost predicate Parted(before: seq<Option<StompData>>, after: seq<Option<StompData>>, d: StompData) {
    && |after| == |before|
    && forall j :: 0 <= j < |after| ==> after[j] == if before[j] == Some(d) then None else before[j]
  }

  /** stomp_data_t: the part that sends, and ss_bind. */
  class SessionData {
    const data: StompData
    var bind: Binding?

    /** A session that is bound has a queue. */
    ghost predicate Valid()
      reads this, data, data.Repr
    {
      this !in data.Repr && data.Valid() && (bind != null ==> data.msgq != null)
    }

    ghost predicate Apart(b: Binding)
      reads this, data, b
    {
      b !in data.Repr && b.members !in data.Repr
    }

    /** The session is in a slot of the binding exactly if it is bound to it. */
    ghost predicate MemberOk(b: Binding)
      reads this, data, b, b.members
    {
      Apart(b) && (Some(data) in b.members[..] <==> bind == b)
    }

    /** stomp_create_session for a connection without session data. */
    constructor ()
      ensures Valid() && fresh(data.Repr) && bind == null && data.msgq == null && data.slen == 0 && !data.stale
    {
      data := new StompData();
      bind := null;
    }

    /** binding_subscribe of the session's queue, with `ss->ss_bind = bi`. */
    method Join(b: Binding)
      requires Valid() && bind == null && data.msgq != null && MemberOk(b)
      requires b.Valid() && Members.Distinct(b.members[..])
      modifies this`bind, b, b.members
      ensures Valid() && bind == b && MemberOk(b) && (b.members == old(b.members) || fresh(b.members))
      ensures b.Valid() && Members.Distinct(b.members[..]) && b.count == old(b.count) + 1 && b.round == old(b.round)
      ensures Joined(old(b.members[..]), b.members[..], data)
    {
      Members.SubscribeJoins(b.members[..], data);
      b.Subscribe(data);
      bind := b;
    }

    /** binding_unsubscribe of the session's queue, with `ss->ss_bind = NULL`; the binding leaves the
        table exactly with its last member. */
    method Leave(index: BindingIndex)
      requires Valid() && bind != null && MemberOk(bind)
      requires bind.Valid() && Members.Distinct(bind.members[..])
      modifies this`bind, bind`count, bind.members, index
      ensures Valid() && bind == null && MemberOk(old(bind))
      ensures Parted(old(bind.members[..]), old(bind).members[..], data)
      ensures old(bind).Valid() && Members.Distinct(old(bind).members[..]) && old(bind).count == old(bind.count) - 1
      ensures index.table == if old(bind.count) == 1 then old(index.table) - {old(bind).name} else old(index.table)
    {
      var b := bind;
      Members.UnsubscribeLeaves(b.members[..], data, 0);
      var destroyed := b.Unsubscribe(data);
      if destroyed {
        index.table := index.table - {b.name};
      }
      bind := null;
    }

    /** stomp_new_binding, for a name that it knows. */
    method JoinNew(index: BindingIndex, dest: seq<byte>)
      requires Valid() && bind == null && data.msgq != null && index !in data.Repr
      modifies this`bind, index
      ensures Valid() && fresh(bind) && fresh(bind.members) && MemberOk(bind)
      ensures bind.Valid() && Members.Distinct(bind.members[..]) && bind.count == 1
      ensures index.table == old(index.table)[dest := bind]
      ensures bind.name == dest && (bind.isQueue <==> Brokers.QUEUE_PREFIX <= dest)
      ensures Joined(Members.Blank(Members.INITIAL_SLOTS), bind.members[..], data)
    {
      var b := new Binding(dest, Brokers.QUEUE_PREFIX <= dest);
      Join(b);
      index.table := index.table[dest := b];
    }
  }
}
