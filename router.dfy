/** The broadcast loop of the `chat` branch: which entries receive the relayed frame. */
module Router {
  import opened Json
  import opened Sessions

  /** One `ws.send` of the broadcast: the connection it goes to and the frame it carries. */
  datatype Delivery = Delivery(to: Handle, frame: OutFrame)

  /**
   * The indices of the entries whose rooms include `slug`, in registry order.
   * This is the independent description of "the members of the room".
   */
  function Members(users: seq<User>, slug: Value): (r: seq<nat>)
    ensures forall k :: 0 <= k < |r| ==> r[k] < |users| && slug in users[r[k]].rooms
    ensures forall k, l :: 0 <= k < l < |r| ==> r[k] < r[l]
    ensures forall i :: 0 <= i < |users| && slug in users[i].rooms ==> i in r
    decreases |users|
  {
    if |users| == 0 then []
    else
      var n := |users| - 1;
      Members(users[..n], slug) + (if slug in users[n].rooms then [n] else [])
  }

  /** The sends `users.forEach(u => { if (u.rooms.includes(slug)) u.ws.send(f) })` makes. */
  function Deliveries(users: seq<User>, slug: Value, f: OutFrame): seq<Delivery>
    decreases |users|
  {
    if |users| == 0 then []
    else
      var n := |users| - 1;
      Deliveries(users[..n], slug, f) + (if slug in users[n].rooms then [Delivery(users[n].ws, f)] else [])
  }

  /**
   * The broadcast sends one frame per member entry, following `Members`: the
   * k-th send goes to the k-th member in registry order, and carries `f`.
   */
  lemma {:induction false} DeliveriesFollowMembers(users: seq<User>, slug: Value, f: OutFrame)
    ensures |Deliveries(users, slug, f)| == |Members(users, slug)|
    ensures forall k :: 0 <= k < |Members(users, slug)| ==>
      Deliveries(users, slug, f)[k] == Delivery(users[Members(users, slug)[k]].ws, f)
    decreases |users|
  {
    if |users| > 0 {
      var n := |users| - 1;
      var pre := users[..n];
      DeliveriesFollowMembers(pre, slug, f);
      forall k | 0 <= k < |Members(pre, slug)|
        ensures users[Members(pre, slug)[k]] == pre[Members(pre, slug)[k]]
      {
      }
    }
  }

  /** Every send of the broadcast carries `f` and goes to an entry that joined `slug`. */
  lemma {:induction false} DeliveriesOnlyToMembers(users: seq<User>, slug: Value, f: OutFrame, d: Delivery)
    requires d in Deliveries(users, slug, f)
    ensures d.frame == f
    ensures exists i :: 0 <= i < |users| && users[i].ws == d.to && slug in users[i].rooms
  {
    DeliveriesFollowMembers(users, slug, f);
    var k :| 0 <= k < |Deliveries(users, slug, f)| && Deliveries(users, slug, f)[k] == d;
    var i := Members(users, slug)[k];
    assert users[i].ws == d.to && slug in users[i].rooms;
  }

  /** The number of sends addressed to `h`. */
  function SendsTo(ds: seq<Delivery>, h: Handle): nat
    decreases |ds|
  {
    if |ds| == 0 then 0
    else SendsTo(ds[..|ds| - 1], h) + (if ds[|ds| - 1].to == h then 1 else 0)
  }

  /** The number of entries bound to `h` that have joined `slug`. */
  function JoinedEntries(users: seq<User>, h: Handle, slug: Value): nat
    decreases |users|
  {
    if |users| == 0 then 0
    else
      var n := |users| - 1;
      JoinedEntries(users[..n], h, slug) + (if users[n].ws == h && slug in users[n].rooms then 1 else 0)
  }

  lemma {:induction false} SendsToAppend(ds: seq<Delivery>, es: seq<Delivery>, h: Handle)
    ensures SendsTo(ds + es, h) == SendsTo(ds, h) + SendsTo(es, h)
    decreases |es|
  {
    if |es| > 0 {
      var m := |es| - 1;
      assert (ds + es)[..|ds + es| - 1] == ds + es[..m];
      SendsToAppend(ds, es[..m], h);
    } else {
      assert ds + es == ds;
    }
  }

  /** A connection receives one frame per registry entry of its that joined the room. */
  lemma {:induction false} SendsCountJoinedEntries(users: seq<User>, slug: Value, f: OutFrame, h: Handle)
    ensures SendsTo(Deliveries(users, slug, f), h) == JoinedEntries(users, h, slug)
    decreases |users|
  {
    if |users| > 0 {
      var n := |users| - 1;
      SendsCountJoinedEntries(users[..n], slug, f, h);
      var tail := if slug in users[n].rooms then [Delivery(users[n].ws, f)] else [];
      SendsToAppend(Deliveries(users[..n], slug, f), tail, h);
      assert SendsTo(tail, h) == (if users[n].ws == h && slug in users[n].rooms then 1 else 0) by {
        if |tail| == 1 { assert tail[..0] == []; }
      }
    }
  }

  /** No two registry entries share a connection (each `connection` event has its own socket). */
  predicate UniqueHandles(users: seq<User>)
  {
    forall i, j :: 0 <= i < j < |users| ==> users[i].ws != users[j].ws
  }

  lemma {:induction false} JoinedEntriesBound(users: seq<User>, h: Handle, slug: Value)
    requires UniqueHandles(users)
    ensures JoinedEntries(users, h, slug) ==
      (if exists i :: 0 <= i < |users| && users[i].ws == h && slug in users[i].rooms then 1 else 0)
    decreases |users|
  {
    if |users| > 0 {
      var n := |users| - 1;
      var pre := users[..n];
      JoinedEntriesBound(pre, h, slug);
      if exists i :: 0 <= i < |pre| && pre[i].ws == h && slug in pre[i].rooms {
        var i :| 0 <= i < |pre| && pre[i].ws == h && slug in pre[i].rooms;
        assert users[i].ws == h && users[n].ws != h;
      } else if users[n].ws == h && slug in users[n].rooms {
      } else {
        forall i | 0 <= i < |users| && users[i].ws == h
          ensures slug !in users[i].rooms
        {
          if i < n { assert pre[i] == users[i]; }
        }
      }
    }
  }

  /**
   * With one entry per connection, a broadcast reaches every connection whose
   * entry joined `slug` exactly once (the sender included) and no other connection.
   */
  lemma ExactlyOncePerMember(users: seq<User>, slug: Value, f: OutFrame, h: Handle)
    requires UniqueHandles(users)
    ensures SendsTo(Deliveries(users, slug, f), h) ==
      (if exists i :: 0 <= i < |users| && users[i].ws == h && slug in users[i].rooms then 1 else 0)
  {
    SendsCountJoinedEntries(users, slug, f, h);
    JoinedEntriesBound(users, h, slug);
  }
}
