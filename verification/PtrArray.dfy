/** The growable pointer array behind the slots of lists and maps. */
module PtrArray {
  import opened Common

  type Ptr = nat

  class GrowableArray {
    var pdata: array<Ptr>
    var len: nat
    ghost var Repr: set<object>

    ghost predicate Valid()
      reads this, Repr
    {
      this in Repr && pdata in Repr && len <= pdata.Length
    }

    /** The slots in use, in order. */
    ghost function Contents(): seq<Ptr>
      reads this, Repr
      requires Valid()
    {
      pdata[..len]
    }

    constructor ()
      ensures Valid() && fresh(Repr) && Contents() == []
    {
      pdata, len := new Ptr[0], 0;
      Repr := {this, pdata};
    }

    /** Room starts at sixteen slots and doubles; what was stored moves along. */
    method Add(data: Ptr)
      requires Valid()
      modifies Repr
      ensures Valid() && fresh(Repr - old(Repr)) && Contents() == old(Contents()) + [data]
      ensures pdata.Length == if old(len) < old(pdata.Length) then old(pdata.Length)
                              else if old(len) == 0 then 16 else 2 * old(len)
    {
      if len == pdata.Length {
        var grown := new Ptr[if pdata.Length == 0 then 16 else pdata.Length * 2];
        forall i | 0 <= i < len {
          grown[i] := pdata[i];
        }
        pdata := grown;
        Repr := Repr + {grown};
      }
      pdata[len] := data;
      len := len + 1;
    }

    /** Reading past the end gives no pointer. */
    method Index(i: nat) returns (data: Option<Ptr>)
      requires Valid()
      ensures data == if i < |Contents()| then Some(Contents()[i]) else None
    {
      data := if i >= len then None else Some(pdata[i]);
    }
  }
}
