/**
 Incremental parsing of a byte stream. Every receive loop in the program has the same shape:
 append what recv returned to a buffer, take complete items off the front, keep the rest.
 This module states that shape once, for any "take one item" function that is stable under
 extension of its input, and proves that where TCP cuts the stream does not matter.
 */
module Incremental {
  import opened Bytes

  /** What one look at the front of the buffer finds. `last` marks an item after which the loop stops reading. */
  datatype Step<T> = More | Reject | Item(item: T, used: nat, last: bool)

  /** What a parsing pass leaves: items in order, unparsed bytes, and whether the connection is finished. */
  datatype Drained<T> = Drained(items: seq<T>, rest: seq<byte>, done: bool)

  /** Taking consumes at least one byte of the buffer, and bytes arriving later never change a decision. */
  ghost predicate Framing<T>(take: seq<byte> -> Step<T>) {
    && (forall b :: take(b).Item? ==> 0 < take(b).used <= |b|)
    && (forall b, more :: !take(b).More? ==> take(b + more) == take(b))
  }

  /** The inner loop: everything that can be taken from b. */
  ghost function Drain<T>(take: seq<byte> -> Step<T>, b: seq<byte>): (d: Drained<T>)
    requires Framing(take)
    ensures |d.rest| <= |b|
    decreases |b|
  {
    match take(b)
    case More => Drained([], b, false)
    case Reject => Drained([], b, true)
    case Item(x, n, last) =>
      if last then Drained([x], b[n..], true)
      else
        var d := Drain(take, b[n..]);
        Drained([x] + d.items, d.rest, d.done)
  }

  /** The outer loop: an empty read is recv returning zero or an error, which ends the connection. */
  ghost function Feed<T>(take: seq<byte> -> Step<T>, carry: seq<byte>, chunks: seq<seq<byte>>): Drained<T>
    requires Framing(take)
    decreases |chunks|
  {
    if chunks == [] || chunks[0] == [] then Drained([], carry, false)
    else
      var d := Drain(take, carry + chunks[0]);
      if d.done then d
      else
        var f := Feed(take, d.rest, chunks[1..]);
        Drained(d.items + f.items, f.rest, f.done)
  }

  /** The bytes that arrive before the stream ends. */
  function Arrived(chunks: seq<seq<byte>>): seq<byte> {
    if chunks == [] || chunks[0] == [] then [] else chunks[0] + Arrived(chunks[1..])
  }

  /** The same items and the same ending, and the same bytes kept while the connection is open. */
  ghost predicate SameOutcome<T>(f: Drained<T>, d: Drained<T>) {
    f.items == d.items && f.done == d.done && (!f.done ==> f.rest == d.rest)
  }

  /** An undecided pass stops exactly where the next item is incomplete. */
  lemma {:induction false} DrainLeavesMore<T>(take: seq<byte> -> Step<T>, b: seq<byte>)
    requires Framing(take)
    ensures !Drain(take, b).done ==> take(Drain(take, b).rest).More?
    decreases |b|
  {
    match take(b)
    case More =>
    case Reject =>
    case Item(x, n, last) =>
      if !last {
        DrainLeavesMore(take, b[n..]);
      }
  }

  lemma Prepend<T>(x: T, xs: seq<T>, ys: seq<T>)
    ensures [x] + (xs + ys) == ([x] + xs) + ys
  {
  }

  /** Carrying on from an earlier pass once more bytes have arrived. */
  ghost function Resume<T>(take: seq<byte> -> Step<T>, d: Drained<T>, more: seq<byte>): Drained<T>
    requires Framing(take)
  {
    if d.done then Drained(d.items, d.rest + more, true)
    else
      var f := Drain(take, d.rest + more);
      Drained(d.items + f.items, f.rest, f.done)
  }

  /** Parsing what is there now and the rest later gives what parsing everything at once gives. */
  lemma {:induction false} DrainAppend<T>(take: seq<byte> -> Step<T>, b: seq<byte>, more: seq<byte>)
    requires Framing(take)
    ensures Drain(take, b + more) == Resume(take, Drain(take, b), more)
    decreases |b|
  {
    var s := take(b);
    if s.Item? {
      assert take(b + more) == s;
      assert (b + more)[s.used..] == b[s.used..] + more;
      if !s.last {
        DrainAppend(take, b[s.used..], more);
        var d := Drain(take, b[s.used..]);
        Prepend(s.item, d.items, Drain(take, d.rest + more).items);
      }
    } else {
      assert [] + Drain(take, b + more).items == Drain(take, b + more).items;
    }
  }

  /**
   Chunk independence, exactly. However the bytes that arrive are cut into reads, the outcome is that of a single
   pass over the bytes carried in and all that arrive, unless nothing arrives and the bytes carried in already hold
   something to act on: the loop parses only after a read.
   */
  lemma ChunkIndependence<T>(take: seq<byte> -> Step<T>, carry: seq<byte>, chunks: seq<seq<byte>>)
    requires Framing(take)
    ensures SameOutcome(Feed(take, carry, chunks), Drain(take, carry + Arrived(chunks)))
       <==> Arrived(chunks) != [] || take(carry).More?
    ensures Arrived(chunks) == [] ==> Feed(take, carry, chunks) == Drained([], carry, false)
  {
    if Arrived(chunks) == [] {
      assert carry + [] == carry;
    } else {
      FeedIsDrain(take, carry, chunks);
    }
  }

  lemma {:induction false} FeedIsDrain<T>(take: seq<byte> -> Step<T>, carry: seq<byte>, chunks: seq<seq<byte>>)
    requires Framing(take) && Arrived(chunks) != []
    ensures SameOutcome(Feed(take, carry, chunks), Drain(take, carry + Arrived(chunks)))
    decreases |chunks|
  {
    var buf, tail := carry + chunks[0], chunks[1..];
    assert carry + Arrived(chunks) == buf + Arrived(tail);
    DrainAppend(take, buf, Arrived(tail));
    var head := Drain(take, buf);
    if !head.done {
      if Arrived(tail) == [] {
        FeedNothing(take, buf, tail);
      } else {
        FeedIsDrain(take, head.rest, tail);
      }
    }
  }

  /** When nothing more arrives, resuming changes nothing. */
  lemma FeedNothing<T>(take: seq<byte> -> Step<T>, b: seq<byte>, chunks: seq<seq<byte>>)
    requires Framing(take) && Arrived(chunks) == []
    ensures var d := Drain(take, b);
            Feed(take, d.rest, chunks) == Drained([], d.rest, false) && (!d.done ==> Resume(take, d, Arrived(chunks)) == d)
  {
    var d := Drain(take, b);
    DrainLeavesMore(take, b);
    assert d.rest + Arrived(chunks) == d.rest;
    assert d.items + [] == d.items;
  }

  /** What is still to come in the middle of a pass: the buffer first, then the reads after it. */
  ghost function Pass<T>(take: seq<byte> -> Step<T>, b: seq<byte>, chunks: seq<seq<byte>>): Drained<T>
    requires Framing(take)
  {
    var d := Drain(take, b);
    if d.done then d
    else
      var f := Feed(take, d.rest, chunks);
      Drained(d.items + f.items, f.rest, f.done)
  }

  /** How each outcome of looking at the front of the buffer moves a pass on. */
  lemma PassStep<T>(take: seq<byte> -> Step<T>, b: seq<byte>, chunks: seq<seq<byte>>)
    requires Framing(take)
    ensures take(b).More? ==> Pass(take, b, chunks) == Feed(take, b, chunks)
    ensures take(b).Reject? ==> Pass(take, b, chunks) == Drained([], b, true)
    ensures take(b).Item? && take(b).last ==> Pass(take, b, chunks) == Drained([take(b).item], b[take(b).used..], true)
    ensures take(b).Item? && !take(b).last ==>
      Pass(take, b, chunks) == After(take(b).item, Pass(take, b[take(b).used..], chunks))
  {
    var s := take(b);
    if s.More? {
      assert [] + Feed(take, b, chunks).items == Feed(take, b, chunks).items;
    } else if s.Item? && !s.last {
      var d := Drain(take, b[s.used..]);
      if !d.done {
        Prepend(s.item, d.items, Feed(take, d.rest, chunks).items);
      }
    }
  }

  function After<T>(x: T, d: Drained<T>): Drained<T> {
    Drained([x] + d.items, d.rest, d.done)
  }

  lemma FeedStep<T>(take: seq<byte> -> Step<T>, carry: seq<byte>, chunks: seq<seq<byte>>)
    requires Framing(take)
    ensures chunks == [] || chunks[0] == [] ==> Feed(take, carry, chunks) == Drained([], carry, false)
    ensures chunks != [] && chunks[0] != [] ==> Feed(take, carry, chunks) == Pass(take, carry + chunks[0], chunks[1..])
  {
  }

  /** Two ways of cutting the same bytes are indistinguishable. */
  lemma AnyTwoCuttings<T>(take: seq<byte> -> Step<T>, carry: seq<byte>, xs: seq<seq<byte>>, ys: seq<seq<byte>>)
    requires Framing(take) && Arrived(xs) == Arrived(ys)
    ensures SameOutcome(Feed(take, carry, xs), Feed(take, carry, ys))
  {
    ChunkIndependence(take, carry, xs);
    ChunkIndependence(take, carry, ys);
  }
}
