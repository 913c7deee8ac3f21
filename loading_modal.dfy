/**
  The loading overlay (components/LoadingModal.tsx): while a request is
  running it cycles through a fixed list of messages, one step per tick of a
  timer. The timer itself is not modelled; a tick is one call of `Step`.
 */
module LoadingModal {

  /** `loadingMessages`. */
  const Messages: seq<string> := [
    "Analyzing your image...",
    "Consulting the digital muse...",
    "Applying creative edits...",
    "Painting with pixels...",
    "Almost there, just polishing the details...",
    "Finalizing your masterpiece..."
  ]

  /** The message shown when the overlay opens. */
  const InitialIndex: nat := 0

  /** One tick, `(prevIndex + 1) % loadingMessages.length`: the next message, wrapping after the last. */
  function Step(i: nat): (r: nat)
    ensures r < |Messages|
    ensures i + 1 < |Messages| ==> r == i + 1
    ensures i + 1 == |Messages| ==> r == 0
  {
    (i + 1) % |Messages|
  }

  /** The index after `n` ticks from `i`. */
  function Iterate(i: nat, n: nat): (r: nat)
    decreases n
  {
    if n == 0 then i else Step(Iterate(i, n - 1))
  }

  /** From a valid index, `n` ticks advance the index by `n` around the cycle of messages. */
  lemma {:induction false} IterateIsShift(i: nat, n: nat)
    requires i < |Messages|
    ensures Iterate(i, n) == (i + n) % |Messages|
    decreases n
  {
    if n > 0 {
      IterateIsShift(i, n - 1);
      var p := (i + n - 1) % |Messages|;
      assert Iterate(i, n) == (p + 1) % |Messages|;
      assert (i + n - 1) == ((i + n - 1) / |Messages|) * |Messages| + p;
      assert i + n == ((i + n - 1) / |Messages|) * |Messages| + (p + 1);
    }
  }

  /** As many ticks as there are messages bring the overlay back to the message it showed. */
  lemma FullCycle(i: nat)
    requires i < |Messages|
    ensures Iterate(i, |Messages|) == i
  {
    IterateIsShift(i, |Messages|);
  }

  /** The message on screen: always defined, since the index never leaves the list. */
  function CurrentMessage(i: nat): (m: string)
    requires i < |Messages|
    ensures m in Messages
  {
    Messages[i]
  }

  /**
    The overlay's index after `ticks` timer ticks: computed tick by tick, as
    the interval does, from the initial message.
   */
  method RunTimer(ticks: nat) returns (index: nat)
    ensures index == Iterate(InitialIndex, ticks)
    ensures index == ticks % |Messages|
    ensures index < |Messages|
  {
    index := InitialIndex;
    var t := 0;
    while t < ticks
      invariant t <= ticks
      invariant index == Iterate(InitialIndex, t)
      invariant index < |Messages|
    {
      index := Step(index);
      t := t + 1;
    }
    IterateIsShift(InitialIndex, ticks);
  }
}
