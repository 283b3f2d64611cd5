/** The set of polled descriptors (fd_set.c). */
module FdSet {
  import opened Growth

  datatype PollFd = PollFd(fd: int, events: int, revents: int)

  /** The least non-negative timeout, or -1 when every timeout is negative. */
  ghost predicate IsTimeout(timeout: int, given: seq<int>) {
    if forall i :: 0 <= i < |given| ==> given[i] < 0 then timeout == -1
    else timeout >= 0 && timeout in given && forall i :: 0 <= i < |given| && given[i] >= 0 ==> timeout <= given[i]
  }

  /** The result of the first item that has the descriptor, as `poll` reported it; 0 without such an item. */
  function FirstEvents(items: seq<PollFd>, fd: int): int {
    if items == [] then 0 else if items[0].fd == fd then items[0].revents else FirstEvents(items[1..], fd)
  }

  lemma {:induction false} FirstEventsAt(items: seq<PollFd>, fd: int, k: nat)
    requires k <= |items|
    requires forall i :: 0 <= i < k ==> items[i].fd != fd
    ensures FirstEvents(items, fd) == FirstEvents(items[k..], fd)
    ensures k == |items| ==> FirstEvents(items, fd) == 0
    ensures k < |items| && items[k].fd == fd ==> FirstEvents(items, fd) == items[k].revents
    decreases k
  {
    if k > 0 {
      FirstEventsAt(items[1..], fd, k - 1);
      assert items[1..][k - 1..] == items[k..];
    } else {
      assert items[0..] == items;
    }
  }

  class Set {
    var size: nat
    var items: array<PollFd>
    var timeout: int
    ghost var given: seq<int>   // the timeouts added since the last clear
    ghost var cost: Cost

    ghost predicate Valid()
      reads this, items
    {
      && size == |given|
      && size <= items.Length == cost.capacity
      && IsTimeout(timeout, given)
      && Amortised(cost)
    }

    ghost function Contents(): seq<PollFd>
      requires size <= items.Length
      reads this, items
    {
      items[..size]
    }

    constructor ()
      ensures Valid() && fresh(items) && Contents() == [] && timeout == -1
    {
      size := 0;
      items := new PollFd[0];
      timeout := -1;
      given := [];
      cost := FRESH;
    }

    /** `fd_set_add`; the `revents` field of the new item keeps whatever the memory held. */
    method Add(fd: int, events: int, timeout: int)
      requires Valid()
      modifies this, items
      ensures Valid() && (items == old(items) || fresh(items))
      ensures given == old(given) + [timeout]
      ensures |Contents()| == |old(Contents())| + 1
      ensures Contents()[..old(size)] == old(Contents())
      ensures Contents()[old(size)].fd == fd && Contents()[old(size)].events == events
    {
      if size == items.Length {
        GrowKeepsAmortised(cost);
        items := Reallocate(items, size);
        cost := Grow(cost);
      }
      items[size] := items[size].(fd := fd, events := events);
      size := size + 1;
      given := given + [timeout];
      if timeout >= 0 && (this.timeout < 0 || timeout < this.timeout) {
        this.timeout := timeout;
      }
      assert timeout == given[|given| - 1];
      assert forall i :: 0 <= i < |given| - 1 ==> given[i] == old(given)[i];
    }

    /** `fd_set_get_events` */
    method GetEvents(fd: int) returns (events: int)
      requires Valid()
      ensures events == FirstEvents(Contents(), fd)
      ensures if forall i :: 0 <= i < size ==> items[i].fd != fd then events == 0
              else exists k :: 0 <= k < size && items[k].fd == fd && events == items[k].revents
                               && forall i :: 0 <= i < k ==> items[i].fd != fd
    {
      var i := 0;
      while i < size
        invariant 0 <= i <= size
        invariant forall j :: 0 <= j < i ==> items[j].fd != fd
      {
        if items[i].fd == fd {
          FirstEventsAt(Contents(), fd, i);
          return items[i].revents;
        }
        i := i + 1;
      }
      FirstEventsAt(Contents(), fd, size);
      events := 0;
    }

    /** `fd_set_clear`; the memory is kept. */
    method Clear()
      requires Valid()
      modifies this
      ensures Valid() && items == old(items) && Contents() == [] && timeout == -1 && given == []
      ensures cost == old(cost)
    {
      size := 0;
      timeout := -1;
      given := [];
    }
  }
}
