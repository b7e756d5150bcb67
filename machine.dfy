/** The slot machine as the code keeps it: one object whose credit balance,
    button state and device buffer are updated in place by each click. */
module Machine {
  import opened SlotTypes
  import opened Paytable
  import opened Decoding
  import Session

  class SlotMachine {
    var credits: int
    /** Whether the PUSH button can be clicked. */
    var enabled: bool
    /** Values prefetched from the device, consumed from the front. */
    var stored: seq<int>

    ghost function State(): Session.State
      reads this
    {
      Session.State(credits, enabled, stored)
    }

    ghost predicate Valid()
      reads this
    {
      Session.Valid(State())
    }

    /** The machine as the set-up code leaves it. */
    constructor ()
      ensures State() == Session.Start && Valid()
    {
      credits := Session.StartCredits;
      enabled := true;
      stored := [];
    }

    /** `update_credits`: add `change` to the balance. */
    method UpdateCredits(change: int)
      modifies this`credits
      ensures credits == old(credits) + change
    {
      credits := credits + change;
    }

    /** `list.pop(0)` on the buffer. */
    method PopFront() returns (r: Result<int>)
      modifies this`stored
      ensures old(stored) != [] ==> r == Ok(old(stored)[0]) && stored == old(stored)[1..]
      ensures old(stored) == [] ==> r == Err(IndexError) && stored == []
    {
      if stored == [] {
        r := Err(IndexError);
      } else {
        r := Ok(stored[0]);
        stored := stored[1..];
      }
    }

    /** The device branch of `get_slot_values`: three pops from the front,
        then a refill request if they emptied the buffer. */
    method PopTriple() returns (d: Draw)
      modifies this`stored
      ensures d == TakeTriple(old(stored)) && stored == d.rest
    {
      var x := PopFront();
      if x.Err? { return Draw(Err(x.error), stored, false); }
      var y := PopFront();
      if y.Err? { return Draw(Err(y.error), stored, false); }
      var z := PopFront();
      if z.Err? { return Draw(Err(z.error), stored, false); }
      var refill := stored == [];
      d := Draw(Ok(Triple(x.value, y.value, z.value)), stored, refill);
    }

    /** `get_slot_values`: the simulator and ANU branches decode what the
        outside world answered; the device branch pops the buffer. */
    method GetSlotValues(backend: string, e: Entropy) returns (d: Draw)
      modifies this`stored
      ensures d == SlotValues(backend, old(stored), e) && stored == d.rest
    {
      if backend == Simulator {
        d := Draw(SimulatorTriple(e.counts), stored, false);
      } else if backend == Device {
        d := PopTriple();
      } else if backend == AnuQrng {
        d := Draw(AnuTriple(e.anuData), stored, false);
      } else {
        d := Draw(Err(InvalidBackend), stored, false);
      }
    }

    /** `compute_payout`: credit the award when it is not zero, and report
        whether the game goes on. */
    method ComputePayout(t: Triple) returns (alive: bool)
      modifies this`credits
      ensures credits == old(credits) + Payout(t)
      ensures alive <==> credits > 0
    {
      var value := Payout(t);
      if value != 0 {
        UpdateCredits(value);
      }
      alive := credits > 0;
    }

    /** `pull_slot`, the PUSH button's handler. */
    method Pull(backend: string, e: Entropy) returns (shown: Result<Triple>, refill: bool)
      requires Valid() && enabled
      modifies this
      ensures Session.Pull(old(State()), backend, e) == Session.Outcome(State(), shown, refill)
      ensures Valid()
    {
      ghost var before := State();
      UpdateCredits(-1);
      enabled := false;
      var d := GetSlotValues(backend, e);
      refill := d.refill;
      if d.triple.Err? {
        shown := d.triple;
      } else if !Displayable(d.triple.value) {
        shown := Err(KeyError);
      } else {
        shown := d.triple;
        var alive := ComputePayout(d.triple.value);
        if alive {
          enabled := true;
        }
      }
      Session.PullKeepsValid(before, backend, e);
    }

    /** The end of the refill: the device's job memory, one `hex` string per
        shot, parsed into the buffer. A malformed entry raises in the refill
        and leaves the buffer as it was. */
    method StoreDeviceInts(memory: seq<string>) returns (ok: bool)
      modifies this`stored
      ensures ok <==> ParseHexAll(memory).Ok?
      ensures ok ==> stored == ParseHexAll(memory).value
      ensures !ok ==> stored == old(stored)
    {
      var parsed := ParseHexAll(memory);
      ok := parsed.Ok?;
      if ok {
        stored := parsed.value;
      }
    }
  }
}
