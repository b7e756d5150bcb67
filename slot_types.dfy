/** Values shared by the slot machine's modules: the outcome of one pull of the
    three reels, the reel symbols, and the errors the machine can raise. */
module SlotTypes {

  /** The exceptions the slot machine's code can raise while serving a pull. */
  datatype Error =
    | InvalidBackend   // `raise Exception('Invalid backend choice.')`
    | IndexError       // `pop(0)` on an empty list, or `rngs[k]` past the end
    | ValueError       // `int(s, base)` on a malformed digit string
    | KeyError         // a reel value that has no image

  datatype Result<T> = Ok(value: T) | Err(error: Error)

  /** The three reel values of one pull, left to right. */
  datatype Triple = Triple(a: int, b: int, c: int)

  /** The reel symbols, in the order of the image table. */
  datatype Symbol =
    | Waiting | Bell | Cherry | Grape | Lemon | Orange | Strawberry | Watermelon | Seven

  /** The integer key under which a symbol's image is stored. */
  function SymbolKey(s: Symbol): (k: int)
    ensures -1 <= k <= 7
    ensures k == -1 <==> s == Waiting
  {
    match s
    case Waiting => -1
    case Bell => 0
    case Cherry => 1
    case Grape => 2
    case Lemon => 3
    case Orange => 4
    case Strawberry => 5
    case Watermelon => 6
    case Seven => 7
  }

  /** The symbol whose image is stored under key `k`, if there is one: the
      image table enumerates nine files and stores the i-th under `i - 1`. */
  function SymbolAt(k: int): (r: Result<Symbol>)
    ensures r.Ok? <==> -1 <= k <= 7
    ensures r.Ok? ==> SymbolKey(r.value) == k
    ensures r.Err? ==> r.error == KeyError
  {
    if k == -1 then Ok(Waiting)
    else if k == 0 then Ok(Bell)
    else if k == 1 then Ok(Cherry)
    else if k == 2 then Ok(Grape)
    else if k == 3 then Ok(Lemon)
    else if k == 4 then Ok(Orange)
    else if k == 5 then Ok(Strawberry)
    else if k == 6 then Ok(Watermelon)
    else if k == 7 then Ok(Seven)
    else Err(KeyError)
  }

  /** Every symbol is found again under its own key: the table is a bijection
      between the nine symbols and the keys -1..7. */
  lemma SymbolKeyRoundTrip(s: Symbol)
    ensures SymbolAt(SymbolKey(s)) == Ok(s)
  {
  }

  /** A triple can be shown on the reels when every value has an image. */
  predicate Displayable(t: Triple) {
    SymbolAt(t.a).Ok? && SymbolAt(t.b).Ok? && SymbolAt(t.c).Ok?
  }

  /** A triple all of whose values lie in 0..7, the range of a 3-bit draw. */
  predicate InReelRange(t: Triple) {
    0 <= t.a <= 7 && 0 <= t.b <= 7 && 0 <= t.c <= 7
  }
}
