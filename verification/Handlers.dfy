/** Where data comes from and goes to: the memory handlers (src/ptp.c:219-315). */
module Handlers {

  class MemoryHandler {
    var data: seq<nat>
    var curoff: nat

    ghost predicate Valid()
      reads this
    {
      curoff <= |data|
    }

    /** ptp_init_recv_memory_handler with no data, ptp_init_send_memory_handler with some. */
    constructor (data: seq<nat>)
      ensures Valid() && this.data == data && curoff == 0
    {
      this.data, curoff := data, 0;
    }

    /** What has not been handed out yet. */
    ghost function Left(): seq<nat>
      requires Valid()
      reads this
    {
      data[curoff..]
    }

    /** memory_getfunc: as much as there is, up to `want`. */
    method Get(want: nat) returns (got: seq<nat>)
      requires Valid()
      modifies this
      ensures Valid() && data == old(data) && curoff == old(curoff) + |got|
      ensures got == old(Left())[..if want <= |old(Left())| then want else |old(Left())|]
      ensures Left() == old(Left())[|got|..]
    {
      var tocopy := want;
      if curoff + tocopy > |data| {
        tocopy := |data| - curoff;
      }
      got := data[curoff..curoff + tocopy];
      curoff := curoff + tocopy;
    }

    /** memory_putfunc: over what is there, growing as needed. */
    method Put(bytes: seq<nat>)
      requires Valid()
      modifies this
      ensures Valid() && curoff == old(curoff) + |bytes|
      ensures data[..curoff] == old(data[..curoff]) + bytes
      ensures data[curoff..] == old(data)[if curoff <= |old(data)| then curoff else |old(data)|..]
    {
      var end := curoff + |bytes|;
      data := data[..curoff] + bytes + if end <= |data| then data[end..] else [];
      curoff := end;
    }
  }
}
