/** The event masks that libev and its watchers exchange. */
module EvBits {

  /** The bits of an event mask that libev itself hands out; a mask is the set of its bits. */
  datatype EvBit = EV_READ | EV_WRITE | EV_IOFDSET | EV_TIMER | EV_ASYNC | EV_CUSTOM | EV_ERROR | EV_OTHER(bit: nat)

  type Events = set<EvBit>
}
