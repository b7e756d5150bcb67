# Quantum slot machine — a Dafny model

This project models the decision logic of the quantum slot machine game. A
player clicks the PUSH button. Each click costs one credit. The machine then
draws three reel values from a source of randomness the player picks in a
drop-down:

- a 9-qubit simulator run;
- a buffer of values prefetched from the `ibmqx2` quantum device;
- the ANU quantum random-number service.

The machine shows the values, pays out by a fixed paytable, and disables the
button for good once the credits run out.

The modules follow the parts of `quantum_slot.py`:

- `SlotTypes` (`slot_types.dfy`): the triple of reel values, the errors the
  code can raise, and the image table that maps keys -1..7 to the nine
  symbols (-1 waiting, 0 bell, 1 cherry, 2 grape, 3 lemon, 4 orange,
  5 strawberry, 6 watermelon, 7 seven).
- `Paytable` (`paytable.dfy`): `compute_payout`'s decision chain, and the same
  paytable written as an ordered rule list.
- `Digits` (`digits.dfy`): the Python string and number conversions the
  decoders use: `int(s, 2)`, `int(s, 16)`, `bin(v)[2:]`, `zfill`, and slices.
- `Decoding` (`decoding.dfy`): `get_slot_values`. This covers the simulator
  split, the ANU top-three-bits decoding, the hex parsing of the device's job
  memory, and the device buffer's pop-three-and-refill.
- `Session` (`session.dfy`): the game as values. It holds a state, one click
  as a function, series of clicks, and the invariants they keep.
- `Machine` (`machine.dfy`): the class `SlotMachine`. Its methods update
  `credits`, `enabled` and `stored` in place, in the order `pull_slot` does.
  `Pull`, `GetSlotValues`, `PopTriple` and `StoreDeviceInts` are proved equal
  to `Session.Pull`, `Decoding.SlotValues`, `Decoding.TakeTriple` and
  `Decoding.ParseHexAll` respectively. `UpdateCredits`, `PopFront` and
  `ComputePayout` state their effect on the fields directly, the last in
  terms of `Paytable.Payout`.

The outputs of the outside world are parameters (`Decoding.Entropy`). These
are the simulator's measured bitstring and the ANU reply's `data` list. The
device's job memory is the argument of `StoreDeviceInts`.

The button's enabled state is the "alive" flag. `Pull` requires it, because a
disabled button cannot be clicked. `Session.Play` ignores clicks made while it
is false.

Points about the code that the model makes explicit:

- **A failed click is not atomic.** `pull_slot` debits the credit and
  disables the button (lines 126-127) before it fetches the values. An
  unknown backend name, a short device buffer, a malformed reply or a reel
  value without an image therefore still costs one credit, and the button
  stays disabled. `Session.UnknownBackendAfterDebit` states this for the
  unknown-name case.
- **Short buffer.** When fewer than three values are buffered, the code's
  `pop(0)` calls remove what is there and then raise IndexError. The buffer is
  left empty, and no refill is requested.
- **Rule order.** The code checks the all-equal rules in the order 7, 6, 5,
  4, 3, 2, 1, 0. No triple matches two rules (`Paytable.RulesDisjoint`), so
  the order never changes a payout.
- **Comment.** The second "two bells" comment (line 108) labels the one-bell
  rule.

## Model

| member | source | states |
|---|---|---|
| SlotTypes.SymbolAt | games/game_engines/quantum_slot/quantum_slot.py:293-297 | exactly the keys -1..7 have an image; every other key is a KeyError; the symbol found under a key has that key |
| SlotTypes.SymbolKeyRoundTrip | games/game_engines/quantum_slot/quantum_slot.py:293-297 | the image table is a bijection between the nine symbols and the keys -1..7 |
| Paytable.Payout | games/game_engines/quantum_slot/quantum_slot.py:78-112 | every triple gets one of 700, 200, 10, 20, 60, 15, 40, 80, 5, 1, 0; it pays more than 1 exactly when its reels agree on a value in 0..7 or show exactly two bells |
| Paytable.PayoutIsFirstMatch | games/game_engines/quantum_slot/quantum_slot.py:82-112 | the decision chain equals the ordered rule table read first-match-wins, with 0 when no rule matches |
| Paytable.RulesDisjoint | games/game_engines/quantum_slot/quantum_slot.py:82-112 | no triple matches two rules, so precedence never changes a payout; all bells is never the two-bell or one-bell case |
| Paytable.AllEqualPaysItsAward | games/game_engines/quantum_slot/quantum_slot.py:82-104 | a triple of three equal values in 0..7 gets that value's award (all bells 80, all sevens 700, ...), always at least 10 |
| Paytable.OtherwisePaysByBells | games/game_engines/quantum_slot/quantum_slot.py:105-112 | any other triple pays by its count of bells: two give 5, one gives 1, none gives 0 |
| Paytable.FirstMatch | games/game_engines/quantum_slot/quantum_slot.py:82-112 | a non-zero first-match award is the award of some rule in the table that matches the triple |
| Digits.ParseBin | games/game_engines/quantum_slot/quantum_slot.py:42 | `int(s, 2)` on plain ASCII digit strings succeeds exactly on non-empty binary strings, with a value below 2 to the length; otherwise ValueError |
| Digits.BinValueToBin | games/game_engines/quantum_slot/quantum_slot.py:42 | writing a binary string's value back at the string's width gives the string |
| Digits.ToBinValue | games/game_engines/quantum_slot/quantum_slot.py:42 | reading back the width-digit rendering of a number below 2 to the width gives the number |
| Digits.PrefixValue | games/game_engines/quantum_slot/quantum_slot.py:58 | the first k digits of a binary string denote its value divided by 2 to the number of dropped digits |
| Digits.LeadingZerosValue | games/game_engines/quantum_slot/quantum_slot.py:58 | zero-padding on the left keeps the string binary and keeps its value |
| Digits.PyBinValue | games/game_engines/quantum_slot/quantum_slot.py:58 | `bin(v)[2:]` denotes v; for v > 0 it starts with a one and 2^(len-1) <= v < 2^len |
| Digits.PyBinFits | games/game_engines/quantum_slot/quantum_slot.py:58 | `bin(v)[2:]` has at most w digits exactly when v < 2^w |
| Digits.PyBin | games/game_engines/quantum_slot/quantum_slot.py:58 | `bin(v)[2:]` is a non-empty binary string (its value and minimality are `Digits.PyBinValue`) |
| Digits.ZFill | games/game_engines/quantum_slot/quantum_slot.py:58 | `zfill(w)` keeps the string whole at the end, pads with zeros on the left up to width w, and keeps a binary string binary |
| Digits.Take | games/game_engines/quantum_slot/quantum_slot.py:58 | `s[:k]` is a prefix of s of length k, or s itself when shorter |
| Digits.Slice | games/game_engines/quantum_slot/quantum_slot.py:42 | `s[i:j]` has the length Python's clamping gives: min(j, len) - min(i, len), so j - i within the string and 0 from past its end |
| Digits.ToHex | games/game_engines/quantum_slot/quantum_slot.py:160 | `hex(n)[2:]` is non-empty hexadecimal with no leading zero for n > 0 (its round trip is `Digits.HexRoundTrip`) |
| Digits.ParseHex | games/game_engines/quantum_slot/quantum_slot.py:160 | `int(s, 16)` succeeds exactly when, after an optional 0x/0X prefix, a non-empty run of hexadecimal digits remains; otherwise ValueError |
| Digits.ParseHexDigits | games/game_engines/quantum_slot/quantum_slot.py:58 | a non-empty run of hexadecimal digits parses whole to its value |
| Digits.HexByte | games/game_engines/quantum_slot/quantum_slot.py:54-58 | two hexadecimal digits denote 16 times the first plus the second, always below 256 |
| Digits.HexRoundTrip | games/game_engines/quantum_slot/quantum_slot.py:160 | a number rendered by `hex`, with or without its 0x prefix, parses back to itself |
| Decoding.SimulatorTriple | games/game_engines/quantum_slot/quantum_slot.py:42 | a decoded simulator outcome gives three values in 0..7; a failure is a ValueError |
| Decoding.SimulatorDecodeEncode | games/game_engines/quantum_slot/quantum_slot.py:42 | a 9-character outcome decodes exactly when it is binary, and re-encoding the three values as 3-digit binary gives the outcome back |
| Decoding.SimulatorEncodeDecode | games/game_engines/quantum_slot/quantum_slot.py:42 | every triple in 0..7 is the decoding of its own 9-bit rendering |
| Decoding.SimulatorShortOutcome | games/game_engines/quantum_slot/quantum_slot.py:42 | an outcome shorter than 7 characters leaves an empty slice and fails |
| Decoding.AnuValue | games/game_engines/quantum_slot/quantum_slot.py:58 | the reel value taken from an ANU number is at most 7 |
| Decoding.TopThree | games/game_engines/quantum_slot/quantum_slot.py:58 | the first three digits of a binary string zero-padded to eight are a number in 0..7 |
| Decoding.TopThreeShort | games/game_engines/quantum_slot/quantum_slot.py:58 | for at most eight digits, they denote the string's value div 32 |
| Decoding.TopThreeLong | games/game_engines/quantum_slot/quantum_slot.py:58 | for nine or more digits padding adds nothing, and they denote the value div 2^(len-3) |
| Decoding.AnuByte | games/game_engines/quantum_slot/quantum_slot.py:58 | for v in 0..255 the reel value is v div 32 |
| Decoding.AnuWide | games/game_engines/quantum_slot/quantum_slot.py:58 | for v >= 256 padding does not cut: the reel value is v's first three binary digits, v div 2^(len-3), always 4..7 |
| Decoding.ParseHexAll | games/game_engines/quantum_slot/quantum_slot.py:159-160 | the list parses exactly when every entry does, entry by entry in order; otherwise ValueError |
| Decoding.ParseHexAllOf | games/game_engines/quantum_slot/quantum_slot.py:159-160 | a list whose entries parse to ns parses to ns |
| Decoding.AnuTriple | games/game_engines/quantum_slot/quantum_slot.py:58-60 | the ANU branch succeeds exactly when the reply has three or more entries and all parse; its values are in 0..7; a short, well-formed reply is an IndexError |
| Decoding.AnuBytesTriple | games/game_engines/quantum_slot/quantum_slot.py:58-60 | a `hex16` reply of three two-digit hexadecimal entries, leading zero allowed, shows each byte's value div 32 |
| Decoding.AnuReplyExample | games/game_engines/quantum_slot/quantum_slot.py:54-60 | the reply `["0c", "ff", "80"]` shows bell, seven, orange |
| Decoding.DeviceMemoryParses | games/game_engines/quantum_slot/quantum_slot.py:159-160 | the device's `hex`-rendered job memory parses back to the measured numbers in order |
| Decoding.TakeTriple | games/game_engines/quantum_slot/quantum_slot.py:43-50 | the device branch succeeds exactly with three or more values buffered; it returns the first three in FIFO order and keeps the rest in order; it requests a refill exactly when it leaves the buffer empty; a short buffer is emptied and raises IndexError |
| Decoding.TakeTriplesServe | games/game_engines/quantum_slot/quantum_slot.py:43-50 | n pulls from a buffer of at least 3n values all succeed; each leaves the buffer's remaining values in order; a refill is requested on exactly the pull that empties the buffer |
| Decoding.TakeTriplesInOrder | games/game_engines/quantum_slot/quantum_slot.py:43-50 | the values those n pulls show are the buffer's first 3n values, in FIFO order |
| Decoding.SlotValues | games/game_engines/quantum_slot/quantum_slot.py:30-62 | any name other than 'qasm_simulator', 'ibmqx2', 'ANU QRNG' is exactly the InvalidBackend error; only the device branch touches the buffer or requests a refill; the other branches' values are in 0..7 |
| Session.Pull | games/game_engines/quantum_slot/quantum_slot.py:124-134 | a click changes the credits by exactly payout - 1 when it shows a triple, and by -1 when it raises; afterwards the button is live iff a triple was shown and credits > 0 |
| Session.PullKeepsValid | games/game_engines/quantum_slot/quantum_slot.py:116-134 | a click keeps credits >= 0 and keeps the button live only while credits > 0 |
| Session.GameEndsOnlyFromOneCredit | games/game_engines/quantum_slot/quantum_slot.py:113-121 | a click that shows a triple ends the game only from 1 credit with a 0 payout, leaving 0 credits |
| Session.UnknownBackendAfterDebit | games/game_engines/quantum_slot/quantum_slot.py:124-130 | an unknown backend raises InvalidBackend after the debit: credits - 1, button disabled, buffer unchanged, no refill |
| Session.KeyErrorOnlyFromDevice | games/game_engines/quantum_slot/quantum_slot.py:128-131 | a reel value without an image can come only from the device buffer; other backends leave the buffer unchanged |
| Session.JackpotFromStart | games/game_engines/quantum_slot/quantum_slot.py:299 | from the start state of 20 credits, a simulator outcome of three sevens leaves 719 credits and the game going |
| Session.LastCreditLost | games/game_engines/quantum_slot/quantum_slot.py:117-121 | from 1 credit, lemon-orange-grape leaves 0 credits and the button disabled |
| Session.Play | games/game_engines/quantum_slot/quantum_slot.py:124-134 | a series of clicks serves at most one click per request; a disabled button serves none and changes nothing |
| Session.PlayCredits | games/game_engines/quantum_slot/quantum_slot.py:73-76 | after any series of clicks, credits = initial - clicks served + total payout |
| Session.PlayKeepsValid | games/game_engines/quantum_slot/quantum_slot.py:116-134 | any series of clicks keeps the invariant; every click but the last showed a triple |
| Session.PlayEndsDisabled | games/game_engines/quantum_slot/quantum_slot.py:116-134 | a session that ends with the button disabled served at least one click, and either has 0 credits or was stopped by an exception on its last click |
| Machine.SlotMachine.constructor | games/game_engines/quantum_slot/quantum_slot.py:292-299 | the machine starts with 20 credits, the button live and an empty buffer |
| Machine.SlotMachine.UpdateCredits | games/game_engines/quantum_slot/quantum_slot.py:73-74 | adds the change to the balance |
| Machine.SlotMachine.PopFront | games/game_engines/quantum_slot/quantum_slot.py:44 | `pop(0)` returns and removes the first value, or raises IndexError on an empty buffer |
| Machine.SlotMachine.PopTriple | games/game_engines/quantum_slot/quantum_slot.py:43-50 | three pops in place give exactly `TakeTriple` of the old buffer, and the buffer becomes its rest |
| Machine.SlotMachine.GetSlotValues | games/game_engines/quantum_slot/quantum_slot.py:30-62 | the in-place dispatch gives exactly `SlotValues` of the old buffer |
| Machine.SlotMachine.ComputePayout | games/game_engines/quantum_slot/quantum_slot.py:78-121 | credits grow by exactly the payout, so a zero payout leaves them untouched; it reports alive iff credits > 0 |
| Machine.SlotMachine.Pull | games/game_engines/quantum_slot/quantum_slot.py:124-134 | the handler's in-place steps give exactly the state, shown values and refill request of `Session.Pull`, and keep the invariant |
| Machine.SlotMachine.StoreDeviceInts | games/game_engines/quantum_slot/quantum_slot.py:159-160 | the buffer becomes the parsed job memory when every entry parses, and is unchanged otherwise |

## Left out

- Building and running quantum circuits and choosing the device (lines 32-41,
  136-141, 147-158): these are calls into the quantum framework. Their outputs
  are inputs to the model: the measured bitstring (`Entropy.counts`) and the
  job memory (`StoreDeviceInts`).
- The HTTP request to the ANU service (lines 53-57): network I/O. Only the
  decoding of its `data` list is modelled.
- The refill threads (lines 25-26, 48-49, 144-162): concurrency. A refill is
  requested by a returned boolean, and its completion is the separate call
  `StoreDeviceInts`. Because of this, the race between a refill and a click is
  not modelled. Nor is the drop-down hiding `ibmqx2` while a refill runs
  (lines 145-146, 162).
- All widget, image-file and HTML work (`set_images`, the HTML text in
  `update_credits`, lines 165-324). The one exception is the image-table
  lookup at line 131, whose KeyError changes control flow.
- Digits.ParseBin: Python's `int(s, 2)` also accepts a `0b` prefix, a sign,
  surrounding whitespace, underscores between digits and non-ASCII Unicode
  decimal digits. The model rejects all of these. The simulator's outcome and
  `bin`'s output never contain them.
- Decoding.SimulatorTriple: inherits `Digits.ParseBin`'s rejection of those
  forms in a slice. The simulator never produces them.
- Digits.ParseHex: Python's `int(s, 16)` also accepts a sign, surrounding
  whitespace, underscores and non-ASCII Unicode decimal digits. The model
  rejects these. Neither the device memory nor the ANU reply contains them.
- The three Aqua notebook scripts (Deutsch-Jozsa, Shor, Grover) only
  instantiate framework objects and print results. They contain no logic of
  their own.
- The distribution of reel values: randomness quality is not a property of
  this code.
