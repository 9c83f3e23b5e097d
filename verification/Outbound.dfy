/**
What waits to be written to one session socket. A plain frame waits its turn whatever follows; of a topic only the
newest notice waits.
*/
module Outbound {
  import opened Lists
  import opened Wrappers

  datatype Refused = Closed | Overflow

  /** One queued frame: its text, the text's bytes, and the topic a change notice names. */
  datatype Item<F> = Item(frame: F, size: nat, topic: Option<string>)

  // ---- The queue as a value ----

  /** Where the notice still queued for `topic` stands, or the queue's length when none is. */
  function Position<F>(items: seq<Item<F>>, topic: Option<string>): (p: nat)
    ensures p <= |items|
    ensures p < |items| ==> topic.Some? && items[p].topic == topic
    ensures topic.Some? ==> forall i | 0 <= i < p :: items[i].topic != topic
    ensures topic.None? ==> p == |items|
  {
    if topic.None? then |items|
    else if items == [] || items[0].topic == topic then 0
    else 1 + Position(items[1..], topic)
  }

  function PutItem<F>(items: seq<Item<F>>, item: Item<F>): seq<Item<F>> {
    var p := Position(items, item.topic);
    if p < |items| then items[p := item] else items + [item]
  }

  function Bytes<F>(items: seq<Item<F>>): nat {
    if items == [] then 0 else items[0].size + Bytes(items[1..])
  }

  /** The frames no topic coalesces, in order. */
  function Plain<F>(items: seq<Item<F>>): seq<Item<F>> {
    if items == [] then []
    else (if items[0].topic.None? then [items[0]] else []) + Plain(items[1..])
  }

  /** The last notice of a topic. */
  function LastOf<F>(items: seq<Item<F>>, topic: string): Option<Item<F>> {
    if items == [] then None
    else if items[|items| - 1].topic == Some(topic) then Some(items[|items| - 1])
    else LastOf(items[..|items| - 1], topic)
  }

  ghost predicate OneNoticeEach<F>(items: seq<Item<F>>) {
    forall i, j | 0 <= i < j < |items| && items[i].topic.Some? :: items[i].topic != items[j].topic
  }

  /**
  The queue and what was already taken from it stand for the whole log of accepted frames: every result is taken or
  waits, in exactly the order it was put; each topic's newest notice waits or is the last of that topic taken; a topic
  has at most one notice waiting; and nothing is taken that was not put.
  */
  ghost predicate Refines<F>(items: seq<Item<F>>, taken: seq<Item<F>>, accepted: seq<Item<F>>) {
    && OneNoticeEach(items)
    && Plain(taken) + Plain(items) == Plain(accepted)
    && (forall topic :: LastOf(taken + items, topic) == LastOf(accepted, topic))
    && multiset(taken) + multiset(items) <= multiset(accepted)
  }

  // ---- Lemmas about the queue's parts ----

  lemma {:induction false} BytesSplit<F>(left: seq<Item<F>>, right: seq<Item<F>>)
    ensures Bytes(left + right) == Bytes(left) + Bytes(right)
  {
    if left == [] {
      assert left + right == right;
    } else {
      assert (left + right)[1..] == left[1..] + right;
      BytesSplit(left[1..], right);
    }
  }

  lemma PlainHead<F>(items: seq<Item<F>>)
    requires items != []
    ensures Plain(items) == (if items[0].topic.None? then [items[0]] else []) + Plain(items[1..])
  {
  }

  lemma {:induction false} PlainSplit<F>(left: seq<Item<F>>, right: seq<Item<F>>)
    ensures Plain(left + right) == Plain(left) + Plain(right)
  {
    if left == [] {
      assert left + right == right;
    } else {
      assert (left + right)[1..] == left[1..] + right;
      PlainSplit(left[1..], right);
      PlainHead(left);
      PlainHead(left + right);
    }
  }

  /** With `PlainSplit`: exactly the frames no topic coalesces, in order. */
  lemma PlainOne<F>(item: Item<F>)
    ensures Plain([item]) == if item.topic.None? then [item] else []
  {
    assert [item][1..] == [];
  }

  /** Replacing the queued notice of a topic changes the queue's bytes by the difference and no plain frame. */
  lemma ReplacedParts<F>(items: seq<Item<F>>, p: nat, item: Item<F>)
    requires p < |items| && item.topic.Some? && items[p].topic == item.topic
    ensures Bytes(items[p := item]) == Bytes(items) - items[p].size + item.size
    ensures Plain(items[p := item]) == Plain(items)
  {
    var before, after := items[..p], items[p + 1..];
    assert items == before + ([items[p]] + after);
    assert items[p := item] == before + ([item] + after);
    BytesSplit(before, [items[p]] + after);
    BytesSplit(before, [item] + after);
    PlainSplit(before, [items[p]] + after);
    PlainSplit(before, [item] + after);
  }

  lemma PutBytes<F>(items: seq<Item<F>>, item: Item<F>)
    ensures var p := Position(items, item.topic);
      Bytes(PutItem(items, item)) + (if p < |items| then items[p].size else 0) == Bytes(items) + item.size
  {
    var p := Position(items, item.topic);
    if p < |items| {
      ReplacedParts(items, p, item);
    } else {
      BytesSplit(items, [item]);
    }
  }

  /** The last notice of a topic, seen from a notice with none of that topic after it. */
  lemma {:induction false} LastAt<F>(items: seq<Item<F>>, topic: string, k: nat)
    requires k < |items| && items[k].topic == Some(topic)
    requires forall i | k < i < |items| :: items[i].topic != Some(topic)
    ensures LastOf(items, topic) == Some(items[k])
  {
    if k < |items| - 1 {
      LastAt(items[..|items| - 1], topic, k);
    }
  }

  /** Changing one item to another of one topic changes the last notice of no other topic. */
  lemma {:induction false} LastElsewhere<F>(items: seq<Item<F>>, k: nat, item: Item<F>, topic: string)
    requires k < |items| && items[k].topic != Some(topic) && item.topic != Some(topic)
    ensures LastOf(items[k := item], topic) == LastOf(items, topic)
  {
    if k < |items| - 1 {
      assert items[k := item][..|items| - 1] == items[..|items| - 1][k := item];
      if items[|items| - 1].topic != Some(topic) {
        LastElsewhere(items[..|items| - 1], k, item, topic);
      }
    } else {
      assert items[k := item][..k] == items[..k];
    }
  }

  lemma LastAppended<F>(items: seq<Item<F>>, item: Item<F>, topic: string)
    ensures LastOf(items + [item], topic) ==
            if item.topic == Some(topic) then Some(item) else LastOf(items, topic)
  {
    assert (items + [item])[..|items|] == items;
  }

  // ---- Every operation refines the log ----

  lemma PutKeepsOrder<F>(items: seq<Item<F>>, taken: seq<Item<F>>, item: Item<F>)
    ensures Plain(taken) + Plain(PutItem(items, item)) == (Plain(taken) + Plain(items)) + Plain([item])
  {
    var p := Position(items, item.topic);
    if p < |items| {
      ReplacedParts(items, p, item);
    } else {
      PlainSplit(items, [item]);
    }
  }

  lemma PutKeepsLast<F>(items: seq<Item<F>>, taken: seq<Item<F>>, accepted: seq<Item<F>>, item: Item<F>, topic: string)
    requires OneNoticeEach(items) && LastOf(taken + items, topic) == LastOf(accepted, topic)
    ensures LastOf(taken + PutItem(items, item), topic) == LastOf(accepted + [item], topic)
  {
    var p := Position(items, item.topic);
    LastAppended(accepted, item, topic);
    if p < |items| {
      ReplaceKeepsLast(items, taken, p, item, topic);
    } else {
      assert taken + (items + [item]) == (taken + items) + [item];
      LastAppended(taken + items, item, topic);
    }
  }

  lemma OneReplaced<T>(list: seq<T>, p: nat, item: T)
    requires p < |list|
    ensures multiset(list[p := item]) <= multiset(list) + multiset{item}
  {
    assert multiset(list[p := item]) == multiset(list) - multiset{list[p]} + multiset{item};
  }

  lemma PutInventsNothing<F>(items: seq<Item<F>>, item: Item<F>)
    ensures multiset(PutItem(items, item)) <= multiset(items) + multiset{item}
  {
    var p := Position(items, item.topic);
    if p < |items| {
      OneReplaced(items, p, item);
    }
  }

  lemma PutRefines<F>(items: seq<Item<F>>, taken: seq<Item<F>>, accepted: seq<Item<F>>, item: Item<F>)
    requires Refines(items, taken, accepted)
    ensures Refines(PutItem(items, item), taken, accepted + [item])
  {
    PutKeepsOneEach(items, item);
    PutKeepsOrder(items, taken, item);
    PlainSplit(accepted, [item]);
    forall topic ensures LastOf(taken + PutItem(items, item), topic) == LastOf(accepted + [item], topic) {
      PutKeepsLast(items, taken, accepted, item, topic);
    }
    PutKeepsNothingElse(items, taken, accepted, item);
  }

  lemma PutKeepsOneEach<F>(items: seq<Item<F>>, item: Item<F>)
    requires OneNoticeEach(items)
    ensures OneNoticeEach(PutItem(items, item))
  {
  }

  lemma PutKeepsNothingElse<F>(items: seq<Item<F>>, taken: seq<Item<F>>, accepted: seq<Item<F>>, item: Item<F>)
    requires multiset(taken) + multiset(items) <= multiset(accepted)
    ensures multiset(taken) + multiset(PutItem(items, item)) <= multiset(accepted + [item])
  {
    PutInventsNothing(items, item);
    assert multiset(accepted + [item]) == multiset(accepted) + multiset{item};
  }

  lemma ReplaceKeepsLast<F>(items: seq<Item<F>>, taken: seq<Item<F>>, p: nat, item: Item<F>, topic: string)
    requires OneNoticeEach(items) && p < |items| && item.topic.Some? && items[p].topic == item.topic
    ensures LastOf(taken + items[p := item], topic) ==
            if item.topic == Some(topic) then Some(item) else LastOf(taken + items, topic)
  {
    var all, k := taken + items, |taken| + p;
    assert taken + items[p := item] == all[k := item];
    if item.topic == Some(topic) {
      LastAt(all[k := item], topic, k);
    } else {
      LastElsewhere(all, k, item, topic);
    }
  }

  lemma ConcatPlain<F>(left: seq<Item<F>>, middle: seq<Item<F>>, right: seq<Item<F>>)
    ensures Plain(left + middle) + Plain(right) == Plain(left) + Plain(middle + right)
  {
    PlainSplit(left, middle);
    PlainSplit(middle, right);
    Associates(Plain(left), Plain(middle), Plain(right));
  }

  lemma TakeKeepsOrder<F>(items: seq<Item<F>>, taken: seq<Item<F>>)
    requires items != []
    ensures Plain(taken + [items[0]]) + Plain(items[1..]) == Plain(taken) + Plain(items)
  {
    ConcatPlain(taken, items[..1], items[1..]);
    assert items[..1] == [items[0]] && items == items[..1] + items[1..];
  }

  lemma TakeKeepsLast<F>(items: seq<Item<F>>, taken: seq<Item<F>>, topic: string)
    requires items != []
    ensures LastOf((taken + [items[0]]) + items[1..], topic) == LastOf(taken + items, topic)
  {
    assert (taken + [items[0]]) + items[1..] == taken + items;
  }

  lemma NothingPut<F>()
    ensures Refines<F>([], [], [])
  {
    assert forall topic :: LastOf<F>([] + [], topic) == LastOf<F>([], topic);
  }

  lemma TakeMovesOne<T>(items: seq<T>, taken: seq<T>)
    requires items != []
    ensures multiset(taken + [items[0]]) + multiset(items[1..]) == multiset(taken) + multiset(items)
  {
    assert items == [items[0]] + items[1..];
  }

  lemma TakeRefines<F>(items: seq<Item<F>>, taken: seq<Item<F>>, accepted: seq<Item<F>>)
    requires Refines(items, taken, accepted) && items != []
    ensures Refines(items[1..], taken + [items[0]], accepted)
  {
    var rest, longer := items[1..], taken + [items[0]];
    assert OneNoticeEach(rest);
    assert Plain(longer) + Plain(rest) == Plain(accepted) by {
      TakeKeepsOrder(items, taken);
    }
    forall topic ensures LastOf(longer + rest, topic) == LastOf(accepted, topic) {
      TakeKeepsLast(items, taken, topic);
    }
    assert multiset(longer) + multiset(rest) <= multiset(accepted) by {
      TakeMovesOne(items, taken);
    }
  }

  // ---- The whole life of a queue ----

  datatype Change<F> = Accepts(item: Item<F>) | Takes

  /** A queue, what was taken from it, and everything it accepted. */
  datatype Life<F> = Life(items: seq<Item<F>>, taken: seq<Item<F>>, accepted: seq<Item<F>>)

  function Lived<F>(changes: seq<Change<F>>): Life<F> {
    if changes == [] then Life([], [], [])
    else
      var Life(items, taken, accepted) := Lived(Before(changes));
      match Last(changes)
      case Accepts(item) => Life(PutItem(items, item), taken, accepted + [item])
      case Takes =>
        if items == [] then Life(items, taken, accepted) else Life(items[1..], taken + [items[0]], accepted)
  }

  /** Whatever was put and taken, the queue stands for the whole log. */
  lemma {:induction false} LivedRefines<F>(changes: seq<Change<F>>)
    ensures var life := Lived(changes); Refines(life.items, life.taken, life.accepted)
  {
    if changes == [] {
      NothingPut<F>();
    } else {
      var life := Lived(Before(changes));
      LivedRefines(Before(changes));
      if Last(changes).Accepts? {
        PutRefines(life.items, life.taken, life.accepted, Last(changes).item);
      } else if life.items != [] {
        TakeRefines(life.items, life.taken, life.accepted);
      }
    }
  }

  lemma LivesOn<F>(changes: seq<Change<F>>, change: Change<F>)
    ensures Before(changes + [change]) == changes && Last(changes + [change]) == change
  {
  }

  // ---- The queue ----

  /** Places one frame: over the notice still queued for its topic, or at the back. */
  method Placed<F(==)>(items: seq<Item<F>>, queued: nat, item: Item<F>) returns (next: seq<Item<F>>, bytes: nat)
    requires queued == Bytes(items)
    ensures next == PutItem(items, item) && bytes == Bytes(next)
  {
    var position := 0;
    while position < |items| && !(item.topic.Some? && items[position].topic == item.topic)
      invariant position <= |items|
      invariant item.topic.Some? ==> forall i | 0 <= i < position :: items[i].topic != item.topic
    {
      position := position + 1;
    }
    PutBytes(items, item);
    assert position == Position(items, item.topic);
    if position < |items| {
      var previous := items[position].size;
      next, bytes := items[position := item], queued + item.size - previous;
    } else {
      next, bytes := items + [item], queued + item.size;
    }
  }

  class Outbound<F(==)> {
    const limit: nat
    var items: seq<Item<F>>
    var queued: nat
    var closed: bool
    // The unbounded log: every frame accepted, and every frame taken, in order.
    ghost var accepted: seq<Item<F>>
    ghost var taken: seq<Item<F>>
    ghost var changes: seq<Change<F>>

    /** The byte count is exact, and the queue and its log are what its changes made of them. */
    ghost predicate Valid()
      reads this
    {
      queued == Bytes(items) && Life(items, taken, accepted) == Lived(changes)
    }

    /** So the queue still stands for the whole log. */
    lemma StandsForLog()
      requires Valid()
      ensures Refines(items, taken, accepted)
    {
      LivedRefines(changes);
    }

    constructor (limit: nat)
      ensures Valid() && this.limit == limit && !closed && accepted == [] && taken == []
    {
      this.limit := limit;
      items, queued, closed := [], 0, false;
      accepted, taken, changes := [], [], [];
    }

    /** Queues one frame; an overflowing frame stays queued, and a closed queue accepts nothing. */
    method Put(frame: F, size: nat, topic: Option<string>) returns (refused: Option<Refused>)
      requires Valid()
      modifies this
      ensures Valid() && closed == old(closed) && taken == old(taken)
      ensures refused == Some(Closed) <==> closed
      ensures closed ==> accepted == old(accepted) && items == old(items)
      ensures !closed ==>
        && items == PutItem(old(items), Item(frame, size, topic))
        && accepted == old(accepted) + [Item(frame, size, topic)]
        && (refused == Some(Overflow) <==> Bytes(items) > limit)
    {
      if closed {
        return Some(Closed);
      }
      var item := Item(frame, size, topic);
      LivesOn(changes, Accepts(item));
      items, queued := Placed(items, queued, item);
      accepted, changes := accepted + [item], changes + [Accepts(item)];
      refused := if queued > limit then Some(Overflow) else None;
    }

    /** Refuses every later frame. */
    method Close()
      requires Valid()
      modifies this`closed
      ensures Valid() && closed
    {
      closed := true;
    }

    /** Takes the frame that waited longest, if one waits. */
    method Take() returns (frame: Option<F>)
      requires Valid()
      modifies this
      ensures Valid() && closed == old(closed) && accepted == old(accepted)
      ensures old(items) == [] ==> frame == None && items == [] && taken == old(taken)
      ensures old(items) != [] ==>
        && frame == Some(old(items)[0].frame)
        && items == old(items)[1..]
        && taken == old(taken) + [old(items)[0]]
    {
      if items == [] {
        return None;
      }
      LivesOn(changes, Takes);
      var item := items[0];
      items, queued := items[1..], queued - item.size;
      taken, changes := taken + [item], changes + [Takes];
      frame := Some(item.frame);
    }

    method Queued() returns (bytes: nat)
      requires Valid()
      ensures bytes == Bytes(items)
    {
      bytes := queued;
    }
  }
}
