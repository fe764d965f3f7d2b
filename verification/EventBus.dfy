/**
 Fan-out to subscribers, each behind its own bounded queue that drops its oldest message when full.
 */
module EventBus {

  /** The last `n` elements, or all of them when `n` is zero or less (an unbounded queue). */
  function Last<T>(s: seq<T>, n: int): seq<T> { if 0 < n < |s| then s[|s| - n..] else s }

  class Mailbox<T> {
    const maxsize: int
    var items: seq<T>
    ghost var published: seq<T>   // everything published since subscribing
    ghost var taken: nat          // how much of it lies before the next message that could be delivered
    ghost var delivered: seq<T>
    ghost var from: seq<nat>      // where in `published` each delivered message was
    ghost var dropped: nat

    /** The queue holds exactly the last `maxsize` messages published after the last one delivered. */
    ghost predicate Valid()
      reads this
    {
      && taken <= |published|
      && items == Last(published[taken..], maxsize)
      && |delivered| + dropped + |items| == |published|
      && (dropped == 0 ==> delivered + items == published)
      && |from| == |delivered|
      && (forall i :: 0 <= i < |from| ==> from[i] < taken && delivered[i] == published[from[i]])
      && (forall i, j :: 0 <= i < j < |from| ==> from[i] < from[j])
    }

    constructor (maxsize: int)
      ensures Valid() && this.maxsize == maxsize && published == [] && delivered == [] && dropped == 0
    {
      this.maxsize, items, published, taken, delivered, from, dropped := maxsize, [], [], 0, [], [], 0;
    }

    predicate Full()
      reads this
    {
      maxsize > 0 && |items| >= maxsize
    }

    /** One subscriber's share of `publish`. */
    method Put(message: T)
      requires Valid()
      modifies this
      ensures Valid() && published == old(published) + [message] && delivered == old(delivered) && from == old(from)
      ensures items == Last(old(items) + [message], maxsize)
      ensures dropped == old(dropped) + (if old(Full()) then 1 else 0)
    {
      ghost var rest := published[taken..];
      assert (published + [message])[taken..] == rest + [message];
      LastOfLast(rest, message, maxsize);
      PutDropsOldest(items, message, maxsize);
      if Full() {
        items := items[1..];
        dropped := dropped + 1;
      }
      items := items + [message];
      published := published + [message];
    }

    /** `get`, when there is something to get: the message taken was published after all delivered before. */
    method Take() returns (message: T)
      requires Valid() && items != []
      modifies this
      ensures Valid() && published == old(published) && dropped == old(dropped)
      ensures [message] + items == old(items) && delivered == old(delivered) + [message]
      ensures |from| == |old(from)| + 1 && from[..|old(from)|] == old(from)
    {
      message := items[0];
      var rest := items[1..];
      ghost var k: nat := |published| - |items|;
      taken := k + 1;
      assert published[taken..] == rest && published[k] == message;
      from := from + [k];
      items := rest;
      delivered := delivered + [message];
    }
  }

  class Bus<T> {
    const maxsize: int
    var subscribers: set<Mailbox<T>>

    ghost predicate Valid()
      reads this, subscribers
    {
      forall b :: b in subscribers ==> b.Valid() && b.maxsize == maxsize
    }

    constructor (maxsize: int := 100)
      ensures Valid() && this.maxsize == maxsize && subscribers == {}
    {
      this.maxsize, subscribers := maxsize, {};
    }

    method Subscribe() returns (b: Mailbox<T>)
      requires Valid()
      modifies this
      ensures Valid() && fresh(b) && subscribers == old(subscribers) + {b}
      ensures b.published == [] && b.delivered == [] && b.items == []
    {
      b := new Mailbox(maxsize);
      subscribers := subscribers + {b};
    }

    /** A mailbox not subscribed is left where it is, as `discard` does. */
    method Unsubscribe(b: Mailbox<T>)
      requires Valid()
      modifies this
      ensures Valid() && subscribers == old(subscribers) - {b}
    {
      subscribers := subscribers - {b};
    }

    /** Every subscriber gets the message; none is waited for, and a mailbox that is not subscribed, or no
        longer, gets nothing. */
    method Publish(message: T)
      requires Valid()
      modifies subscribers
      ensures Valid()
      ensures forall b :: b in subscribers ==>
        && b.published == old(b.published) + [message] && b.delivered == old(b.delivered)
        && b.items == Last(old(b.items) + [message], maxsize)
      ensures forall b: Mailbox<T> :: old(allocated(b)) && b !in subscribers ==> unchanged(b)
    {
      var rest := subscribers;
      while rest != {}
        invariant rest <= subscribers && Valid()
        invariant forall b :: b in rest ==>
          b.published == old(b.published) && b.delivered == old(b.delivered) && b.items == old(b.items)
        invariant forall b :: b in subscribers - rest ==>
          && b.published == old(b.published) + [message] && b.delivered == old(b.delivered)
          && b.items == Last(old(b.items) + [message], maxsize)
        decreases rest
      {
        var b :| b in rest;
        b.Put(message);
        rest := rest - {b};
      }
    }
  }

  /** A full queue loses its oldest message and no other; one that is not full loses nothing. */
  lemma PutDropsOldest<T>(items: seq<T>, message: T, maxsize: int)
    requires 0 < maxsize ==> |items| <= maxsize
    ensures Last(items + [message], maxsize)
         == if 0 < maxsize == |items| then items[1..] + [message] else items + [message]
  {
  }

  /** Keeping the last so many after each message is keeping the last so many of all. */
  lemma LastOfLast<T>(s: seq<T>, x: T, n: int)
    ensures Last(Last(s, n) + [x], n) == Last(s + [x], n)
  {
  }

  lemma LastKeepsAll<T>(s: seq<T>, n: int)
    ensures Last(s, n) == s <==> n <= 0 || |s| <= n
    ensures 0 < n ==> |Last(s, n)| <= n
  {
  }
}
