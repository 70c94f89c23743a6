/**
 The double-buffered queue of the GAP kernels: an append-only buffer with a window.
 What is pushed is not seen until the window slides.
 */
module SlidingQueues {

  class SlidingQueue {
    const shared: array<int>
    var sharedIn: nat
    var outStart: nat
    var outEnd: nat

    ghost predicate Valid()
      reads this
    {
      outStart <= outEnd <= sharedIn <= shared.Length
    }

    /** Everything pushed so far. */
    ghost function Pushed(): seq<int>
      requires Valid()
      reads this, shared
    {
      shared[..sharedIn]
    }

    /** The part of the queue that the current round reads. */
    function Window(): seq<int>
      requires Valid()
      reads this, shared
    {
      shared[outStart..outEnd]
    }

    constructor (size: nat)
      ensures Valid() && fresh(shared) && shared.Length == size
      ensures sharedIn == outStart == outEnd == 0
    {
      shared := new int[size];
      sharedIn, outStart, outEnd := 0, 0, 0;
    }

    method PushBack(x: int)
      requires Valid() && sharedIn < shared.Length
      modifies this`sharedIn, shared
      ensures Valid() && sharedIn == old(sharedIn) + 1
      ensures Pushed() == old(Pushed()) + [x]
      ensures Window() == old(Window())
    {
      shared[sharedIn] := x;
      sharedIn := sharedIn + 1;
    }

    method SlideWindow()
      requires Valid()
      modifies this`outStart, this`outEnd
      ensures Valid() && outStart == old(outEnd) && outEnd == sharedIn
      ensures Pushed() == old(Pushed())
      ensures Window() == old(Pushed())[old(outEnd)..]
    {
      outStart := outEnd;
      outEnd := sharedIn;
    }
  }
}
