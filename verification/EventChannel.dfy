/** Channel merging parallel producers: pushes never block, a live waiter is served first, and a bounded
    buffer drops its oldest item. */
module EventChannel {
  import opened JsText

  /** What a channel holds; waiters are the calls of `receive` not yet resolved, oldest first. */
  datatype Queue<T> = Queue(buffer: seq<T>, waiters: seq<nat>, closed: bool, dropped: nat, capacity: Option<nat>)

  /** What became of an item that left the channel. */
  datatype Fate<T> = Delivered(item: T) | Dropped(item: T)

  datatype ReceiveResult<T> = Item(value: T) | Timeout | Closed

  predicate IsSound<T>(q: Queue<T>) {
    && (q.capacity.Some? ==> q.capacity.value >= 1 && |q.buffer| <= q.capacity.value)
    && (q.waiters != [] ==> q.buffer == [] && !q.closed)
  }

  predicate IsHandedOver<T>(q: Queue<T>) {
    !q.closed && q.waiters != []
  }

  function Push<T>(q: Queue<T>, item: T): Queue<T> {
    if q.closed then q
    else if q.waiters != [] then q.(waiters := q.waiters[1..])
    else
      var more := q.buffer + [item];
      if q.capacity.Some? && |more| > q.capacity.value
      then q.(buffer := more[|more|-q.capacity.value..], dropped := q.dropped + |more| - q.capacity.value)
      else q.(buffer := more)
  }

  /** Items a push makes leave the channel. */
  function PushFates<T>(q: Queue<T>, item: T): seq<Fate<T>> {
    if q.closed then []
    else if q.waiters != [] then [Delivered(item)]
    else if q.capacity.Some? && |q.buffer| + 1 > q.capacity.value && q.buffer != [] then [Dropped(q.buffer[0])]
    else []
  }

  /** A closed channel ignores pushes. */
  function Accept<T>(q: Queue<T>, accepted: seq<T>, item: T): seq<T> {
    if q.closed then accepted else accepted + [item]
  }

  function Items<T>(fates: seq<Fate<T>>): (r: seq<T>)
    ensures |r| == |fates|
  {
    seq(|fates|, i requires 0 <= i < |fates| => fates[i].item)
  }

  /** Items that were delivered, in order. */
  function DeliveredItems<T>(fates: seq<Fate<T>>): (r: seq<T>)
    ensures |r| <= |fates|
  {
    if fates == [] then []
    else
      var before, last := DeliveredItems(fates[..|fates|-1]), fates[|fates|-1];
      if last.Delivered? then before + [last.item] else before
  }

  /** Every accepted item is gone or buffered, in order, and every drop is counted. */
  ghost predicate Accounts<T(!new)>(q: Queue<T>, accepted: seq<T>, fates: seq<Fate<T>>) {
    && Items(fates) + q.buffer == accepted
    && q.dropped == |fates| - |DeliveredItems(fates)|
  }

  lemma ItemsConcat<T>(a: seq<Fate<T>>, b: seq<Fate<T>>)
    ensures Items(a + b) == Items(a) + Items(b)
  {}

  lemma DeliveredItemsSnoc<T>(fates: seq<Fate<T>>, fate: Fate<T>)
    ensures DeliveredItems(fates + [fate]) == DeliveredItems(fates) + (if fate.Delivered? then [fate.item] else [])
  {
    assert (fates + [fate])[..|fates|] == fates;
  }

  /** A push drops at most one item, keeps the order, and loses nothing unaccounted. */
  lemma PushAccounts<T(!new)>(q: Queue<T>, item: T, accepted: seq<T>, fates: seq<Fate<T>>)
    requires IsSound(q) && Accounts(q, accepted, fates)
    ensures IsSound(Push(q, item))
    ensures Accounts(Push(q, item), Accept(q, accepted, item), fates + PushFates(q, item))
    ensures !q.closed && q.waiters == [] ==> Push(q, item).buffer != [] && Last(Push(q, item).buffer) == item
  {
    if PushFates(q, item) == [] {
      assert fates + [] == fates;
    } else {
      DeliveredItemsSnoc(fates, PushFates(q, item)[0]);
      ItemsConcat(fates, PushFates(q, item));
      assert Items(PushFates(q, item)) == [PushFates(q, item)[0].item];
      if q.waiters == [] {
        var more := q.buffer + [item];
        assert more == [q.buffer[0]] + more[1..];
      }
    }
  }

  /** A closed channel stays as it is, a waiter is served before anything is buffered, and a full buffer loses exactly
      its oldest item. */
  lemma PushIs<T>(q: Queue<T>, item: T)
    requires IsSound(q)
    ensures var full := q.capacity == Some(|q.buffer|);
            Push(q, item)
            == if q.closed then q
               else if q.waiters != [] then q.(waiters := q.waiters[1..])
               else if full then q.(buffer := q.buffer[1..] + [item], dropped := q.dropped + 1)
               else q.(buffer := q.buffer + [item])
    ensures PushFates(q, item)
         == if q.closed then []
            else if q.waiters != [] then [Delivered(item)]
            else if q.capacity == Some(|q.buffer|) then [Dropped(q.buffer[0])]
            else []
  {
    var more := q.buffer + [item];
    if q.buffer != [] { assert more[1..] == q.buffer[1..] + [item]; }
  }

  lemma TakeAccounts<T(!new)>(q: Queue<T>, accepted: seq<T>, fates: seq<Fate<T>>)
    requires q.buffer != [] && Accounts(q, accepted, fates)
    ensures Accounts(q.(buffer := q.buffer[1..]), accepted, fates + [Delivered(q.buffer[0])])
  {
    DeliveredItemsSnoc(fates, Delivered(q.buffer[0]));
    ItemsConcat(fates, [Delivered(q.buffer[0])]);
    assert q.buffer == [q.buffer[0]] + q.buffer[1..];
  }

  /** The list without its first `w`, if it has one. */
  function Without(waiters: seq<nat>, w: nat): seq<nat> {
    if waiters == [] then [] else if waiters[0] == w then waiters[1..] else [waiters[0]] + Without(waiters[1..], w)
  }

  /** The call gave up waiting. */
  function Expire<T>(q: Queue<T>, waiter: nat): Queue<T> {
    q.(waiters := Without(q.waiters, waiter))
  }

  lemma {:induction false} WithoutFirst(waiters: seq<nat>, w: nat, at: nat)
    requires at <= |waiters| && forall k | 0 <= k < at :: waiters[k] != w
    requires at < |waiters| ==> waiters[at] == w
    ensures Without(waiters, w) == if at < |waiters| then waiters[..at] + waiters[at+1..] else waiters
  {
    if at > 0 {
      var rest := waiters[1..];
      WithoutFirst(rest, w, at - 1);
      assert Without(waiters, w) == [waiters[0]] + Without(rest, w);
      hide Without;
      if at < |waiters| {
        assert rest[..at-1] == waiters[1..at] && rest[at..] == waiters[at+1..];
        assert waiters[..at] == [waiters[0]] + waiters[1..at];
      }
    }
  }

  predicate AreDistinct(waiters: seq<nat>) {
    forall i, j | 0 <= i < j < |waiters| :: waiters[i] != waiters[j]
  }

  lemma FirstIsApart(waiters: seq<nat>)
    requires waiters != [] && AreDistinct(waiters)
    ensures AreDistinct(waiters[1..]) && waiters[0] !in waiters[1..]
    ensures forall v :: v in waiters <==> v == waiters[0] || v in waiters[1..]
  {
    assert waiters == [waiters[0]] + waiters[1..];
  }

  lemma JoinsApart(first: nat, rest: seq<nat>)
    requires AreDistinct(rest) && first !in rest
    ensures AreDistinct([first] + rest)
    ensures forall v :: v in [first] + rest <==> v == first || v in rest
  {}

  lemma {:induction false} WithoutRemoves(waiters: seq<nat>, w: nat)
    requires AreDistinct(waiters)
    ensures AreDistinct(Without(waiters, w))
    ensures forall v :: v in Without(waiters, w) <==> v != w && v in waiters
  {
    if waiters != [] {
      hide AreDistinct;
      FirstIsApart(waiters);
      if waiters[0] != w {
        WithoutRemoves(waiters[1..], w);
        JoinsApart(waiters[0], Without(waiters[1..], w));
      }
    }
  }

  /** An expired call is served no more, and the others keep their turn. */
  lemma ExpiredIsNotServed<T>(q: Queue<T>, waiter: nat)
    requires AreDistinct(q.waiters)
    ensures var after := Expire(q, waiter).waiters;
            && AreDistinct(after) && (forall v :: v in after <==> v != waiter && v in q.waiters)
            && (q.waiters != [] && q.waiters[0] != waiter ==> after != [] && after[0] == q.waiters[0])
  {
    WithoutRemoves(q.waiters, waiter);
  }

  class Channel<T(!new)> {
    var buffer: seq<T>
    var waiters: seq<nat>
    var closed: bool
    var dropped: nat
    const capacity: Option<nat>
    ghost var accepted: seq<T>
    ghost var fates: seq<Fate<T>>

    ghost predicate Valid()
      reads this
    {
      IsSound(View()) && Accounts(View(), accepted, fates)
    }

    ghost function View(): Queue<T>
      reads this
    {
      Queue(buffer, waiters, closed, dropped, capacity)
    }

    /** The bound is taken as at least 1. */
    constructor (bound: Option<int>)
      ensures Valid() && View() == Queue([], [], false, 0, capacity)
      ensures capacity == if bound.None? then None else Some(if bound.value >= 1 then bound.value else 1)
      ensures accepted == [] && fates == []
    {
      buffer, waiters, closed, dropped := [], [], false, 0;
      capacity := if bound.None? then None else Some(if bound.value >= 1 then bound.value else 1);
      accepted, fates := [], [];
    }

    /** Drops the oldest items past the bound. */
    method DropOldest()
      modifies this`buffer, this`dropped
      ensures capacity.None? || |old(buffer)| <= capacity.value ==> buffer == old(buffer) && dropped == old(dropped)
      ensures capacity.Some? && |old(buffer)| > capacity.value ==>
        (var excess := |old(buffer)| - capacity.value;
         buffer == old(buffer)[excess..] && dropped == old(dropped) + excess)
    {
      if capacity.None? { return; }
      ghost var all := buffer;
      while |buffer| > capacity.value
        invariant |buffer| <= |all| && buffer == all[|all|-|buffer|..]
        invariant |all| > capacity.value ==> |buffer| >= capacity.value
        invariant |all| <= capacity.value ==> buffer == all
        invariant dropped == old(dropped) + |all| - |buffer|
        decreases |buffer|
      {
        buffer := buffer[1..];
        dropped := dropped + 1;
      }
    }

    /** Gives the item to the oldest waiter, if there is one. */
    method PushItem(item: T) returns (served: Option<nat>)
      requires Valid()
      modifies this
      ensures Valid() && View() == Push(old(View()), item)
      ensures served == if IsHandedOver(old(View())) then Some(old(waiters)[0]) else None
      ensures accepted == Accept(old(View()), old(accepted), item)
      ensures fates == old(fates) + PushFates(old(View()), item)
    {
      PushAccounts(View(), item, accepted, fates);
      hide Accounts, IsSound, PushFates, DeliveredItems, Items, Accept;
      ghost var before := View();
      accepted, fates := Accept(before, accepted, item), fates + PushFates(before, item);
      served := None;
      if !closed {
        if waiters != [] {
          served, waiters := Some(waiters[0]), waiters[1..];
        } else {
          buffer := buffer + [item];
          DropOldest();
        }
      }
      assert View() == Push(before, item);
    }

    /** Takes the oldest item, or registers the caller as a waiter when there is none. */
    method Receive(waiter: nat) returns (result: Option<ReceiveResult<T>>)
      requires Valid()
      modifies this
      ensures Valid() && accepted == old(accepted) && closed == old(closed) && dropped == old(dropped)
      ensures old(buffer) != [] ==> result == Some(Item(old(buffer)[0])) && buffer == old(buffer)[1..]
      ensures old(buffer) != [] ==> waiters == old(waiters) && fates == old(fates) + [Delivered(old(buffer)[0])]
      ensures old(buffer) == [] ==> buffer == [] && fates == old(fates)
      ensures old(buffer) == [] && closed ==> result == Some(Closed) && waiters == old(waiters)
      ensures old(buffer) == [] && !closed ==> result == None && waiters == old(waiters) + [waiter]
    {
      if buffer != [] {
        TakeAccounts(View(), accepted, fates);
        result := Some(Item(buffer[0]));
        fates := fates + [Delivered(buffer[0])];
        buffer := buffer[1..];
      } else if closed {
        result := Some(Closed);
      } else {
        waiters := waiters + [waiter];
        result := None;
      }
    }

    /** The timer of a waiting call: it gives up its place and the call ends without an item. */
    method TimeOut(waiter: nat) returns (result: ReceiveResult<T>)
      requires Valid()
      modifies this`waiters
      ensures Valid() && View() == Expire(old(View()), waiter) && result == Timeout
    {
      hide Items, DeliveredItems, Without;
      ghost var before := View();
      var index := 0;
      while index < |waiters| && waiters[index] != waiter
        invariant 0 <= index <= |waiters| && forall k | 0 <= k < index :: waiters[k] != waiter
      {
        index := index + 1;
      }
      WithoutFirst(waiters, waiter, index);
      if index < |waiters| { waiters := waiters[..index] + waiters[index+1..]; }
      assert View() == Expire(before, waiter);
      result := Timeout;
    }

    method Close() returns (woken: seq<nat>)
      requires Valid()
      modifies this
      ensures Valid() && closed && accepted == old(accepted) && fates == old(fates)
      ensures buffer == old(buffer) && dropped == old(dropped)
      ensures woken == (if old(closed) then [] else old(waiters))
      ensures !old(closed) ==> waiters == []
    {
      woken := [];
      if closed { return; }
      closed := true;
      woken, waiters := waiters, [];
    }
  }
}
