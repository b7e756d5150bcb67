/** The game session as values: the credit balance, whether the PUSH button can
    be clicked, and the device buffer; and what one click does to them. */
module Session {
  import opened SlotTypes
  import opened Paytable
  import opened Decoding

  /** `enabled` is the PUSH button's state: while it is false, clicks do
      nothing. */
  datatype State = State(credits: int, enabled: bool, stored: seq<int>)

  const StartCredits := 20

  /** The machine as it is set up: 20 credits, the button live, an empty
      device buffer. */
  const Start := State(StartCredits, true, [])

  /** The invariant every reachable state keeps: credits never go negative,
      and the button is live only while credits remain. */
  ghost predicate Valid(s: State) {
    s.credits >= 0 && (s.enabled ==> s.credits > 0)
  }

  /** What one click produced: the new state, the reel values shown (or the
      exception that stopped the click), and whether a refill of the device
      buffer was requested. */
  datatype Outcome = Outcome(after: State, shown: Result<Triple>, refill: bool)

  /** One click of the PUSH button, in the code's order: debit one credit and
      disable the button; fetch the reel values; show them, which needs an
      image for each; pay out; and enable the button again only while
      credits remain. An exception at any step after the debit leaves the
      credit spent and the button disabled. */
  function Pull(s: State, backend: string, e: Entropy): (o: Outcome)
    requires s.enabled
    ensures o.shown.Ok? ==> o.after.credits == s.credits - 1 + Payout(o.shown.value)
    ensures o.shown.Err? ==> o.after.credits == s.credits - 1
    ensures o.after.enabled <==> o.shown.Ok? && o.after.credits > 0
  {
    var debited := s.credits - 1;
    var d := SlotValues(backend, s.stored, e);
    var shown := if d.triple.Ok? && !Displayable(d.triple.value) then Err(KeyError) else d.triple;
    if shown.Err? then Outcome(State(debited, false, d.rest), shown, d.refill)
    else
      var credits := debited + Payout(shown.value);
      Outcome(State(credits, credits > 0, d.rest), shown, d.refill)
  }

  /** A click keeps the invariant. */
  lemma PullKeepsValid(s: State, backend: string, e: Entropy)
    requires Valid(s) && s.enabled
    ensures Valid(Pull(s, backend, e).after)
  {
  }

  /** Since a payout is never negative, a click can end the game only from
      one credit, on a triple that pays nothing. */
  lemma GameEndsOnlyFromOneCredit(s: State, backend: string, e: Entropy)
    requires Valid(s) && s.enabled
    ensures var o := Pull(s, backend, e);
            o.shown.Ok? && !o.after.enabled ==> s.credits == 1 && Payout(o.shown.value) == 0 && o.after.credits == 0
  {
  }

  /** An unknown backend name raises after the debit: the credit is spent,
      the button stays disabled, and the buffer is untouched. */
  lemma UnknownBackendAfterDebit(s: State, backend: string, e: Entropy)
    requires s.enabled && !KnownBackend(backend)
    ensures Pull(s, backend, e) == Outcome(State(s.credits - 1, false, s.stored), Err(InvalidBackend), false)
  {
  }

  /** Only the device backend reads the buffer, and a triple from it that has
      no image raises KeyError; the other backends always produce values in
      0..7, which all have images. */
  lemma KeyErrorOnlyFromDevice(s: State, backend: string, e: Entropy)
    requires s.enabled
    ensures Pull(s, backend, e).shown == Err(KeyError) ==> backend == Device
    ensures backend != Device ==> Pull(s, backend, e).after.stored == s.stored
  {
  }

  /** A click from the start position that shows three sevens leaves 719
      credits and the game going. */
  lemma JackpotFromStart()
    ensures Pull(Start, Simulator, Entropy("111111111", [])) == Outcome(State(719, true, []), Ok(Triple(7, 7, 7)), false)
  {
    SimulatorEncodeDecode(Triple(7, 7, 7));
    assert EncodeTriple(Triple(7, 7, 7)) == "111111111";
  }

  /** Losing the last credit: a click from one credit that pays nothing
      leaves no credits and the button disabled. */
  lemma LastCreditLost(stored: seq<int>)
    ensures Pull(State(1, true, stored), Simulator, Entropy("011100010", []))
            == Outcome(State(0, false, stored), Ok(Triple(3, 4, 2)), false)
  {
    SimulatorEncodeDecode(Triple(3, 4, 2));
    assert EncodeTriple(Triple(3, 4, 2)) == "011100010";
  }

  /** One click of a session that has played out: the backend and what the
      outside world answered. */
  datatype Request = Request(backend: string, entropy: Entropy)

  /** A series of clicks. Clicks on a disabled button do nothing. */
  function Play(s: State, rs: seq<Request>): (p: (State, seq<Result<Triple>>))
    ensures |p.1| <= |rs|
    ensures !s.enabled ==> p == (s, [])
    decreases |rs|
  {
    if rs == [] || !s.enabled then (s, [])
    else
      var o := Pull(s, rs[0].backend, rs[0].entropy);
      var rest := Play(o.after, rs[1..]);
      (rest.0, [o.shown] + rest.1)
  }

  /** Sum of the payouts of the clicks that showed a triple. */
  function TotalPayout(shown: seq<Result<Triple>>): (n: nat)
  {
    if shown == [] then 0
    else (if shown[0].Ok? then Payout(shown[0].value) else 0) + TotalPayout(shown[1..])
  }

  /** After any series of clicks the balance is the starting balance, less one
      credit per click served, plus every payout won. */
  lemma {:induction false} PlayCredits(s: State, rs: seq<Request>)
    ensures var p := Play(s, rs);
            p.0.credits == s.credits - |p.1| + TotalPayout(p.1)
    decreases |rs|
  {
    if rs != [] && s.enabled {
      var o := Pull(s, rs[0].backend, rs[0].entropy);
      PlayCredits(o.after, rs[1..]);
      var rest := Play(o.after, rs[1..]);
      assert ([o.shown] + rest.1)[1..] == rest.1;
    }
  }

  /** Any series of clicks keeps the invariant, and every click but the last
      showed a triple: an exception disables the button for good. */
  lemma {:induction false} PlayKeepsValid(s: State, rs: seq<Request>)
    requires Valid(s)
    ensures Valid(Play(s, rs).0)
    ensures forall i :: 0 <= i < |Play(s, rs).1| - 1 ==> Play(s, rs).1[i].Ok?
    decreases |rs|
  {
    if rs != [] && s.enabled {
      var o := Pull(s, rs[0].backend, rs[0].entropy);
      PullKeepsValid(s, rs[0].backend, rs[0].entropy);
      PlayKeepsValid(o.after, rs[1..]);
      var rest := Play(o.after, rs[1..]);
      var all := [o.shown] + rest.1;
      assert Play(s, rs) == (rest.0, all);
      forall i | 1 <= i < |all| - 1 ensures all[i].Ok? {
        assert all[i] == rest.1[i - 1];
      }
      if o.shown.Err? {
        assert rest.1 == [];
      }
    }
  }

  /** A session whose button ends disabled either ran out of credits or was
      stopped by an exception on its last click. */
  lemma {:induction false} PlayEndsDisabled(s: State, rs: seq<Request>)
    requires Valid(s) && s.enabled && !Play(s, rs).0.enabled
    ensures |Play(s, rs).1| > 0
    ensures Play(s, rs).0.credits == 0 || Play(s, rs).1[|Play(s, rs).1| - 1].Err?
    decreases |rs|
  {
    var o := Pull(s, rs[0].backend, rs[0].entropy);
    PullKeepsValid(s, rs[0].backend, rs[0].entropy);
    var rest := Play(o.after, rs[1..]);
    assert Play(s, rs) == (rest.0, [o.shown] + rest.1);
    if o.after.enabled {
      PlayEndsDisabled(o.after, rs[1..]);
    } else {
      assert rest == (o.after, []);
    }
  }
}
