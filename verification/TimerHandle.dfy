/** The `Timer` handle: move-only, cancels its timer when it is dropped. */
module TimerHandles {
  import opened TimerServices
  import T = TimerSpec

  class Timer<E(!new)> {
    var service: TimerService?<E>
    var seqNo: nat

    /** An inert handle, or one of a service in order. The timer itself may be gone. */
    ghost predicate Valid()
      reads this, service, if service != null then {service.buffer} else {}
    {
      service != null ==> service.Valid()
    }

    constructor ()
      ensures service == null
    {
      service, seqNo := null, 0;
    }

    constructor Bound(service: TimerService<E>, seqNo: nat)
      ensures this.service == service && this.seqNo == seqNo
    {
      this.service, this.seqNo := service, seqNo;
    }

    /** `cancel` and the destructor. A timer that has fired, or was cleared, is left alone. */
    method Release()
      requires Valid()
      modifies this`service, if service != null then {service} else {}
      ensures service == null
      ensures old(service) != null ==>
        old(service).Valid() && old(service).timers == T.Cancel(old(service.timers), seqNo)
        && old(service).sink == old(service.sink) && old(service).buffer == old(service.buffer)
    {
      if service != null {
        service.CancelBySeq(seqNo);
        service := null;
      }
    }

    /** Takes over the timer of another handle, which becomes inert. */
    method TakeFrom(other: Timer<E>)
      requires other != this && service == null
      modifies this, other`service
      ensures service == old(other.service) && seqNo == old(other.seqNo) && other.service == null
    {
      service, seqNo := other.service, other.seqNo;
      other.service := null;
    }

    /** Move assignment: the own timer is cancelled, the other's kept; onto itself it does nothing. */
    method MoveFrom(other: Timer<E>)
      requires Valid() && other.Valid()
      modifies this, other`service, if service != null && other != this then {service} else {}
      ensures other == this ==> service == old(service) && seqNo == old(seqNo)
      ensures other != this ==> service == old(other.service) && seqNo == old(other.seqNo) && other.service == null
      ensures other != this && old(service) != null ==>
        old(service).Valid() && old(service).timers == T.Cancel(old(service.timers), old(seqNo))
    {
      if this != other {
        Release();
        TakeFrom(other);
      }
    }
  }
}
