/** Single ownership of descriptors: what is owned is open, nobody else owns it, and it is closed
    exactly once. */
module UniqueFds {

  class Kernel {
    var open: set<int>
    ghost var closed: seq<int>    // history of close calls

    constructor ()
      ensures open == {} && closed == []
    {
      open, closed := {}, [];
    }

    /** A second close would hit whoever got the number next, so it must never happen. */
    method Close(fd: int)
      requires fd in open
      modifies this
      ensures open == old(open) - {fd} && closed == old(closed) + [fd]
    {
      open := open - {fd};
      closed := closed + [fd];
    }
  }

  /** Every owner's descriptor is open and is nobody else's. */
  ghost predicate Exclusive(owners: set<UniqueFd>, kernel: Kernel)
    reads owners, kernel
  {
    && (forall a | a in owners && a.fd >= 0 :: a.fd in kernel.open)
    && forall a, b | a in owners && b in owners && a != b && a.fd >= 0 :: a.fd != b.fd
  }

  /** The descriptor is open and none of the owners', or none at all. */
  ghost predicate MayTake(fd: int, owners: set<UniqueFd>, kernel: Kernel)
    reads owners, kernel
  {
    fd >= 0 ==> fd in kernel.open && forall a | a in owners :: a.fd != fd
  }

  class UniqueFd {
    var fd: int

    /** Takes over a descriptor; ownership is exclusive exactly if it was open and nobody's. */
    constructor (fd: int, ghost owners: set<UniqueFd>, kernel: Kernel)
      requires Exclusive(owners, kernel)
      ensures this.fd == fd
      ensures Exclusive(owners + {this}, kernel) <==> MayTake(fd, owners, kernel)
    {
      this.fd := fd;
      new;
      assert forall a | a in owners :: a in owners + {this};
    }

    constructor Moved(other: UniqueFd, ghost owners: set<UniqueFd>, kernel: Kernel)
      requires other in owners && Exclusive(owners, kernel)
      modifies other
      ensures fd == old(other.fd) && other.fd == -1 && Exclusive(owners + {this}, kernel)
    {
      fd := other.fd;
      new;
      var given := other.Release();
    }

    /** Gives the descriptor away without closing it. */
    method Release() returns (value: int)
      modifies this
      ensures value == old(fd) && fd == -1
    {
      value := fd;
      fd := -1;
    }

    /** Also what the destructor does, with -1. The old descriptor is closed exactly once; ownership
        stays exclusive exactly if the new one is then open and nobody else's. */
    method Reset(next: int, ghost owners: set<UniqueFd>, kernel: Kernel)
      requires this in owners && Exclusive(owners, kernel)
      modifies this, kernel
      ensures fd == next
      ensures Exclusive(owners, kernel) <==> MayTake(next, owners - {this}, kernel)
      ensures old(fd) >= 0 ==>
                kernel.open == old(kernel.open) - {old(fd)} && kernel.closed == old(kernel.closed) + [old(fd)]
      ensures old(fd) < 0 ==> kernel.open == old(kernel.open) && kernel.closed == old(kernel.closed)
    {
      if fd >= 0 {
        kernel.Close(fd);
      }
      fd := next;
      assert forall a | a in owners - {this} :: a in owners;
    }

    method Assign(other: UniqueFd, ghost owners: set<UniqueFd>, kernel: Kernel)
      requires this in owners && other in owners && Exclusive(owners, kernel)
      modifies this, other, kernel
      ensures Exclusive(owners, kernel)
      ensures this == other ==> fd == old(fd) && kernel.open == old(kernel.open) && kernel.closed == old(kernel.closed)
      ensures this != other ==> fd == old(other.fd) && other.fd == -1
      ensures this != other && old(fd) >= 0 ==>
                kernel.open == old(kernel.open) - {old(fd)} && kernel.closed == old(kernel.closed) + [old(fd)]
      ensures this != other && old(fd) < 0 ==> kernel.open == old(kernel.open) && kernel.closed == old(kernel.closed)
    {
      if this != other {
        var value := other.Release();
        Reset(value, owners, kernel);
      }
    }
  }
}
