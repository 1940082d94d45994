/** In-memory state tries of a non-archive node: each written block takes a reference to its root and
    queues it; references are dropped 128 blocks later, oldest first. */
module TrieGc {
  import opened ChainStore

  const TRIES_IN_MEMORY := 128

  datatype Item = Item(root: Hash, number: nat)

  /** What to count: queue items with a given root, or one particular item. */
  datatype Key = ByRoot(root: Hash) | ByItem(item: Item)

  predicate Matches(x: Item, key: Key) {
    match key
    case ByRoot(root) => x.root == root
    case ByItem(item) => x == item
  }

  function Tally(items: seq<Item>, key: Key): nat {
    if items == [] then 0 else (if Matches(items[0], key) then 1 else 0) + Tally(items[1..], key)
  }

  lemma {:induction false} TallyConcat(a: seq<Item>, b: seq<Item>, key: Key)
    ensures Tally(a + b, key) == Tally(a, key) + Tally(b, key)
  {
    if a == [] {
      assert a + b == b;
    } else {
      TallyConcat(a[1..], b, key);
      assert (a + b)[1..] == a[1..] + b;
    }
  }

  lemma TallyAdd(items: seq<Item>, item: Item)
    ensures forall key :: Tally(items + [item], key) == Tally(items, key) + if Matches(item, key) then 1 else 0
  {
    forall key ensures Tally(items + [item], key) == Tally(items, key) + if Matches(item, key) then 1 else 0 {
      TallyConcat(items, [item], key);
    }
  }

  /** Writing block `number` releases this item: it is 128 blocks old or older, and the first 128
      blocks release nothing. */
  predicate Due(item: Item, number: nat) {
    number > TRIES_IN_MEMORY && item.number + TRIES_IN_MEMORY <= number
  }

  /** Take an item with the smallest number, the greatest priority, out of the queue. */
  method PopOldest(queue: seq<Item>) returns (item: Item, rest: seq<Item>)
    requires queue != []
    ensures item in queue && |rest| == |queue| - 1
    ensures forall x :: x in queue ==> item.number <= x.number
    ensures forall x :: x in rest ==> x in queue
    ensures forall key :: Tally(queue, key) == Tally(rest, key) + if Matches(item, key) then 1 else 0
  {
    var k := 0;
    for i := 1 to |queue|
      invariant 0 <= k < i && forall j :: 0 <= j < i ==> queue[k].number <= queue[j].number
    {
      if queue[i].number < queue[k].number {
        k := i;
      }
    }
    item, rest := queue[k], queue[..k] + queue[k + 1..];
    forall key ensures Tally(queue, key) == Tally(rest, key) + if Matches(item, key) then 1 else 0 {
      assert queue == queue[..k] + [item] + queue[k + 1..];
      TallyConcat(queue[..k] + [item], queue[k + 1..], key);
      TallyConcat(queue[..k], [item], key);
      TallyConcat(queue[..k], queue[k + 1..], key);
    }
  }

  class TrieCache {
    var queue: seq<Item>
    var references: map<Hash, nat>
    ghost var pushed: seq<Item>
    ghost var released: seq<Item>

    constructor ()
      ensures Valid() && queue == [] && pushed == [] && released == []
    {
      queue, references, pushed, released := [], map[], [], [];
    }

    function References(root: Hash): nat
      reads this`references
    {
      if root in references then references[root] else 0
    }

    /** Every root has as many references as occurrences in the queue, and every item ever pushed is
        either still queued or was released, as often as it was pushed. */
    ghost predicate Valid()
      reads this
    {
      && (forall root :: References(root) == Tally(queue, ByRoot(root)))
      && (forall key :: Tally(pushed, key) == Tally(released, key) + Tally(queue, key))
    }

    /** Drop the reference of an item just taken from the queue. */
    method Dereference(item: Item, rest: seq<Item>)
      requires Valid()
      requires forall key :: Tally(queue, key) == Tally(rest, key) + if Matches(item, key) then 1 else 0
      modifies this
      ensures Valid() && queue == rest && pushed == old(pushed) && released == old(released) + [item]
    {
      TallyAdd(released, item);
      assert Tally(queue, ByRoot(item.root)) > 0;
      references := references[item.root := References(item.root) - 1];
      queue, released := rest, released + [item];
    }

    /** Release items while the oldest is numbered at most `chosen`. */
    method ReleaseUpTo(chosen: nat)
      requires Valid()
      modifies this
      ensures Valid() && pushed == old(pushed) && old(released) <= released
      ensures forall x :: x in queue ==> x.number > chosen
      ensures forall i :: |old(released)| <= i < |released| ==> released[i].number <= chosen
    {
      while queue != []
        invariant Valid() && pushed == old(pushed) && old(released) <= released
        invariant forall i :: |old(released)| <= i < |released| ==> released[i].number <= chosen
        decreases |queue|
      {
        var item, rest := PopOldest(queue);
        if item.number > chosen {
          TallyAdd(rest, item);
          queue := rest + [item];
          break;
        }
        Dereference(item, rest);
      }
    }

    /** The garbage-collection part of writing a block: items are released exactly when they are due. */
    method WriteBlock(root: Hash, number: nat, archive: bool)
      requires Valid()
      modifies this
      ensures archive ==> unchanged(this)
      ensures Valid() && old(released) <= released
      ensures !archive ==> pushed == old(pushed) + [Item(root, number)]
      ensures forall i :: |old(released)| <= i < |released| ==> Due(released[i], number)
      ensures forall i :: |old(released)| <= i < |released| ==> released[i].number + 128 <= number
      ensures number <= 128 ==> released == old(released)
      ensures !archive && number > 128 ==> forall x :: x in queue ==> x.number + 128 > number
      ensures !archive ==> forall x :: x in queue ==> !Due(x, number)
    {
      if archive {
        return;
      }
      var item := Item(root, number);
      TallyAdd(queue, item);
      TallyAdd(pushed, item);
      references := references[root := References(root) + 1];
      queue, pushed := queue + [item], pushed + [item];
      if number <= TRIES_IN_MEMORY {
        return;
      }
      ReleaseUpTo(number - TRIES_IN_MEMORY);
    }

    /** Shutdown drops every remaining reference. */
    method Drain()
      requires Valid()
      modifies this
      ensures Valid() && queue == [] && pushed == old(pushed)
      ensures forall root :: References(root) == 0
      ensures forall key :: Tally(released, key) == Tally(pushed, key)
    {
      while queue != []
        invariant Valid() && pushed == old(pushed)
        decreases |queue|
      {
        var item, rest := PopOldest(queue);
        Dereference(item, rest);
      }
    }
  }
}
