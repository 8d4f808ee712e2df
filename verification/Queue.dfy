/** The queue of common/include/Queue.h: the non-blocking mode the server uses, and the steps of the waiting one. */
module Queues {
  import opened Options

  class Queue<T> {
    var items: seq<T>
    var maxLen: nat
    var dropOld: bool
    /** Everything accepted so far and everything that has left at the head, in order. */
    ghost var accepted: seq<T>
    ghost var gone: seq<T>

    /** First in, first out: what left and what is held are what was accepted, in that order. */
    ghost predicate Valid()
      reads this
    {
      accepted == gone + items
    }

    constructor (max: nat)
      ensures Valid() && items == [] && accepted == [] && gone == [] && maxLen == max && !dropOld
    {
      items, maxLen, dropOld := [], max, false;
      accepted, gone := [], [];
    }

    /** A full queue refuses the item, or lets the oldest one go first. */
    method Push(item: T) returns (ok: bool)
      requires Valid() && !(dropOld && maxLen == 0)
      modifies this
      ensures Valid() && maxLen == old(maxLen) && dropOld == old(dropOld)
      ensures ok == (old(|items|) < maxLen || dropOld)
      ensures accepted == if ok then old(accepted) + [item] else old(accepted)
      ensures items == if !ok then old(items) else if old(|items|) >= maxLen then old(items)[1..] + [item] else old(items) + [item]
      ensures gone == if ok && old(|items|) >= maxLen then old(gone) + [old(items)[0]] else old(gone)
    {
      if |items| >= maxLen {
        if dropOld {
          gone := gone + [items[0]];
          items := items[1..];
        } else {
          return false;
        }
      }
      items := items + [item];
      accepted := accepted + [item];
      ok := true;
    }

    method Pop() returns (item: Option<T>)
      requires Valid()
      modifies this
      ensures Valid() && maxLen == old(maxLen) && dropOld == old(dropOld) && accepted == old(accepted)
      ensures item == if old(items) == [] then None else Some(old(items)[0])
      ensures items == if old(items) == [] then [] else old(items)[1..]
      ensures gone == if item.None? then old(gone) else old(gone) + [item.value]
    {
      if items == [] {
        return None;
      }
      item := Some(items[0]);
      gone := gone + [items[0]];
      items := items[1..];
    }

    /** push() with a timeout: it waits if the queue is full, and otherwise does what Push does. */
    method PushOrWait(item: T) returns (waits: bool)
      requires Valid() && !(dropOld && maxLen == 0)
      modifies this
      ensures Valid() && maxLen == old(maxLen) && dropOld == old(dropOld)
      ensures waits == (old(|items|) >= maxLen && !dropOld)
      ensures waits ==> items == old(items) && accepted == old(accepted) && gone == old(gone)
      ensures !waits ==> accepted == old(accepted) + [item]
      ensures !waits ==> items == (if old(|items|) >= maxLen then old(items)[1..] else old(items)) + [item]
    {
      waits := |items| >= maxLen && !dropOld;
      if !waits {
        var _ := Push(item);
      }
    }

    /** After the wait: woken, it pushes without looking at the length again, which may pass the maximum. */
    method PushWoken(item: T, timedOut: bool) returns (ok: bool)
      requires Valid()
      modifies this
      ensures Valid() && maxLen == old(maxLen) && dropOld == old(dropOld) && gone == old(gone)
      ensures ok == !timedOut
      ensures items == if ok then old(items) + [item] else old(items)
      ensures accepted == if ok then old(accepted) + [item] else old(accepted)
    {
      if timedOut {
        return false;
      }
      items := items + [item];
      accepted := accepted + [item];
      ok := true;
    }

    /** pop() with a timeout, after a wait: it gives up, waits again while there is nothing, or takes the oldest item. */
    method PopWoken(timedOut: bool) returns (item: Option<T>, waits: bool)
      requires Valid()
      modifies this
      ensures Valid() && maxLen == old(maxLen) && dropOld == old(dropOld) && accepted == old(accepted)
      ensures waits == (!timedOut && old(items) == [])
      ensures item == if timedOut || old(items) == [] then None else Some(old(items)[0])
      ensures items == if item.None? then old(items) else old(items)[1..]
      ensures gone == if item.None? then old(gone) else old(gone) + [item.value]
    {
      if timedOut {
        return None, false;
      }
      item := Pop();
      waits := item.None?;
    }

    method Size() returns (n: nat)
      ensures n == |items|
    {
      n := |items|;
    }
  }
}
