/** Device buffers reached through pointers that the runtime swaps, and the outcome of handing
    work to the device. */
module DeviceMemory {
  class Buffer<T> {
    var cells: seq<T>

    constructor (initial: seq<T>)
      ensures cells == initial
    {
      cells := initial;
    }
  }

  /** s with xs written from slot at on. */
  function Overwrite<T>(s: seq<T>, at: nat, xs: seq<T>): (r: seq<T>)
    requires at + |xs| <= |s|
    ensures |r| == |s|
    ensures r[..at] == s[..at]
    ensures r[..at + |xs|] == s[..at] + xs
    ensures r[at..at + |xs|] == xs
    ensures r[at + |xs|..] == s[at + |xs|..]
  {
    s[..at] + xs + s[at + |xs|..]
  }

  /** Where a launch leaves the token it selects, if anywhere. */
  datatype Slot = NoSlot | TokenSlot(i: nat)

  /** The device accepts a launch or refuses it. */
  method Enqueue() returns (ok: bool) {
    ok := *;
  }

  /** InvalidArgument is a refused guard, DeviceError a launch the device refused. */
  datatype Outcome<+T> = Ok(value: T) | InvalidArgument | DeviceError {
    /** A failure passed on by a caller: a refusal stays a refusal. */
    function Passed<U>(): (r: Outcome<U>)
      requires !Ok?
      ensures !r.Ok? && (r.InvalidArgument? <==> InvalidArgument?)
    {
      if InvalidArgument? then InvalidArgument else DeviceError
    }
  }
}
