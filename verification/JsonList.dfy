/** The doubly linked list of a JSON array's or object's children, edited in place. */
module JsonList {
  class Cell<T> {
    var next: Cell?<T>
    var prev: Cell?<T>
    const value: T

    /** `cJSON_New_Item`: not linked anywhere. */
    constructor (value: T)
      ensures this.value == value && next == null && prev == null
    {
      this.value, next, prev := value, null, null;
    }
  }

  ghost function At<T>(s: seq<Cell<T>>, i: int): Cell?<T> {
    if 0 <= i < |s| then s[i] else null
  }

  /** The children in order, each linked to its neighbours. */
  ghost predicate Linked<T>(s: seq<Cell<T>>)
    reads s
  {
    && (forall i, j :: 0 <= i < j < |s| ==> s[i] != s[j])
    && (forall i :: 0 < i < |s| ==> s[i].prev == s[i - 1] && s[i - 1].next == s[i])
    && (s != [] ==> s[0].prev == null && s[|s| - 1].next == null)
  }

  class Children<T> {
    var child: Cell?<T>
    ghost var cells: seq<Cell<T>>

    ghost predicate Valid()
      reads this, cells
    {
      Linked(cells) && child == At(cells, 0)
    }

    constructor ()
      ensures Valid() && cells == []
    {
      child, cells := null, [];
    }

    lemma {:induction false} Around(i: nat)
      requires Valid() && i < |cells|
      ensures cells[i].prev == At(cells, i - 1) && cells[i].next == At(cells, i + 1)
    {
      assert i + 1 < |cells| ==> cells[i + 1].prev == cells[i];
    }

    /** `get_array_item`: walk from the first child. */
    method Get(which: nat) returns (c: Cell?<T>)
      requires Valid()
      ensures c == At(cells, which)
    {
      c := child;
      var i := 0;
      while c != null && i < which
        invariant i <= which && c == At(cells, i)
        invariant c == null ==> i >= |cells|
        decreases which - i
      {
        assert i + 1 < |cells| ==> cells[i + 1].prev == c;
        c := c.next;
        i := i + 1;
      }
    }

    method Last() returns (last: Cell<T>)
      requires Valid() && child != null
      ensures cells != [] && last == cells[|cells| - 1]
    {
      last := child;
      ghost var i := 0;
      while last.next != null
        invariant 0 <= i < |cells| && last == cells[i]
        decreases |cells| - i
      {
        assert i + 1 < |cells| ==> cells[i + 1].prev == last;
        last := last.next;
        i := i + 1;
      }
      Around(i);
    }

    /** `add_item_to_array`: walk to the last child and hang the item behind it. */
    method Add(item: Cell<T>)
      requires Valid() && item !in cells && item.next == null && item.prev == null
      modifies this, cells, item
      ensures Valid() && cells == old(cells) + [item]
    {
      if child == null {
        child := item;
      } else {
        var last := Last();
        last.next := item;
        item.prev := last;
      }
      cells := cells + [item];
    }

    /** `cJSON_DetachItemViaPointer`: the neighbours are joined and the item is left unlinked. */
    method Detach(item: Cell<T>, ghost i: nat)
      requires Valid() && i < |cells| && cells[i] == item
      modifies this, cells
      ensures Valid() && cells == old(cells[..i] + cells[i + 1..])
      ensures item.next == null && item.prev == null
    {
      Around(i);
      if item.prev != null { item.prev.next := item.next; }
      if item.next != null { item.next.prev := item.prev; }
      if child == item { child := item.next; }
      item.prev, item.next := null, null;
      cells := cells[..i] + cells[i + 1..];
    }

    /** `cJSON_ReplaceItemViaPointer`: the new item takes the old one's place; an item replaces itself by nothing. */
    method Replace(item: Cell<T>, other: Cell<T>, ghost i: nat)
      requires Valid() && i < |cells| && cells[i] == item && (other == item || other !in cells)
      modifies this, cells, other
      ensures Valid() && cells == old(cells[i := other])
      ensures other != item ==> item.next == null && item.prev == null
    {
      if other != item { Relink(item, other, i); }
    }

    method Relink(item: Cell<T>, other: Cell<T>, ghost i: nat)
      requires Valid() && i < |cells| && cells[i] == item && other !in cells
      modifies this, cells, other
      ensures Valid() && cells == old(cells[i := other])
      ensures item.next == null && item.prev == null
    {
      ghost var was := cells;
      Around(i);
      other.next, other.prev := item.next, item.prev;
      if other.next != null { other.next.prev := other; }
      if other.prev != null { other.prev.next := other; }
      if child == item { child := other; }
      item.next, item.prev := null, null;
      cells := was[i := other];
      forall k | 0 < k < |was| ensures cells[k].prev == cells[k - 1] && cells[k - 1].next == cells[k] {
        assert k != i && k != i + 1 ==> old(was[k].prev) == was[k - 1] && old(was[k - 1].next) == was[k];
      }
    }
  }
}
