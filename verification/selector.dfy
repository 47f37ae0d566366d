/**
 * The index arithmetic of `select_with_arrows`: where the highlight starts,
 * how the arrow keys move it, and which key a sequence of key presses picks.
 * Drawing the panel and reading the keyboard are left out; a key press is
 * an input here.
 */
module ArrowSelector {
  import opened Wrappers

  lemma {:induction false} MulAtLeast(x: int, n: int)
    requires n > 0
    ensures x >= 1 ==> x * n >= n
    decreases if x < 0 then 0 else x
  {
    if x > 1 {
      MulAtLeast(x - 1, n);
      assert x * n == (x - 1) * n + n;
    }
  }

  /** The remainder is the one `r` in `[0, n)` with `a == q * n + r`. */
  lemma ModUnique(a: int, n: int, q: int, r: int)
    requires n > 0 && 0 <= r < n && a == q * n + r
    ensures a % n == r
  {
    var q', r' := a / n, a % n;
    assert a == q' * n + r';
    assert (q - q') * n == r' - r;
    assert (q' - q) * n == r - r';
    MulAtLeast(q - q', n);
    MulAtLeast(q' - q, n);
  }

  /** The first position of `k` in `keys`, which must contain it (`list.index`). */
  function IndexOf(keys: seq<string>, k: string): (i: nat)
    requires k in keys
    ensures i < |keys| && keys[i] == k
    ensures forall j :: 0 <= j < i ==> keys[j] != k
  {
    if keys[0] == k then 0 else 1 + IndexOf(keys[1..], k)
  }

  /** The highlighted position before any key is pressed: the default key's position, else the first. */
  function InitialIndex(keys: seq<string>, default: Option<string>): (i: nat)
    ensures default.Some? && default.value != "" && default.value in keys ==>
              i < |keys| && keys[i] == default.value && forall j :: 0 <= j < i ==> keys[j] != default.value
    ensures !(default.Some? && default.value != "" && default.value in keys) ==> i == 0
  {
    if default.Some? && default.value != "" && default.value in keys then IndexOf(keys, default.value)
    else 0
  }

  datatype Direction = Up | Down

  /** One step back or forward from a position in `[0, n)` wraps at the ends. */
  lemma StepArithmetic(i: int, n: int)
    requires n > 0
    ensures 0 <= i < n ==> (i - 1) % n == if i == 0 then n - 1 else i - 1
    ensures 0 <= i < n ==> (i + 1) % n == if i == n - 1 then 0 else i + 1
  {
    if 0 <= i < n {
      if i == 0 { ModUnique(i - 1, n, -1, n - 1); } else { ModUnique(i - 1, n, 0, i - 1); }
      if i == n - 1 { ModUnique(i + 1, n, 1, 0); } else { ModUnique(i + 1, n, 0, i + 1); }
    }
  }

  /**
   * One arrow press: `(i - 1) % n` or `(i + 1) % n`, where Python's `%` with a
   * positive divisor agrees with Dafny's; with no options Python divides by zero.
   */
  function Move(i: int, d: Direction, n: nat): (r: Option<nat>)
    ensures r.Some? <==> n > 0
    ensures r.Some? ==> r.value < n
    ensures r.Some? && 0 <= i < n ==>
              r.value == match d
                         case Up => if i == 0 then n - 1 else i - 1
                         case Down => if i == n - 1 then 0 else i + 1
  {
    if n == 0 then None
    else
      StepArithmetic(i, n);
      match d
      case Up => Some((i - 1) % n)
      case Down => Some((i + 1) % n)
  }

  /** Down undoes Up and Up undoes Down. */
  lemma MoveInverse(i: nat, n: nat)
    requires i < n
    ensures Move(Move(i, Up, n).value, Down, n) == Some(i)
    ensures Move(Move(i, Down, n).value, Up, n) == Some(i)
  {
  }

  /** Pressing Down `k` times from `i`. */
  function Downs(i: nat, k: nat, n: nat): (r: nat)
    requires i < n
    ensures r < n
  {
    if k == 0 then i else Move(Downs(i, k - 1, n), Down, n).value
  }

  /** `k` presses of Down move the highlight `k` places round the list. */
  lemma {:induction false} DownsWrap(i: nat, k: nat, n: nat)
    requires i < n
    ensures Downs(i, k, n) == (i + k) % n
  {
    if k > 0 {
      DownsWrap(i, k - 1, n);
      var j := (i + k - 1) % n;
      assert Downs(i, k, n) == (j + 1) % n;
      ModSucc(i + k - 1, n);
    }
  }

  lemma ModSucc(a: int, n: int)
    requires n > 0
    ensures ((a % n) + 1) % n == (a + 1) % n
  {
    var q, r := a / n, a % n;
    assert a == q * n + r;
    if r + 1 == n {
      ModUnique(r + 1, n, 1, 0);
      ModUnique(a + 1, n, q + 1, 0);
    } else {
      ModUnique(r + 1, n, 0, r + 1);
      ModUnique(a + 1, n, q, r + 1);
    }
  }

  /** A full round of `n` presses of Down comes back to the start. */
  lemma FullRound(i: nat, n: nat)
    requires i < n
    ensures Downs(i, n, n) == i
  {
    DownsWrap(i, n, n);
    ModUnique(i + n, n, 1, i);
  }

  /** What `get_key` reports; anything else is ignored by the loop. */
  datatype KeyPress = ArrowUp | ArrowDown | EnterKey | EscapeKey | CtrlC | OtherKey

  datatype Outcome =
    | Chosen(key: string)  // Enter was pressed on this option
    | Cancelled            // Escape or Ctrl+C: the command exits with status 1
    | Crashed              // no options at all: the arithmetic or the lookup raises
    | Waiting(index: nat)  // the presses ran out before a decision

  /** The selection loop driven by a finite list of presses, from highlighted position `i`. */
  function Run(keys: seq<string>, i: nat, presses: seq<KeyPress>): (o: Outcome)
    requires i < |keys| || (keys == [] && i == 0)
    ensures o.Chosen? ==> o.key in keys
    ensures o.Waiting? ==> o.index < |keys| || keys == []
    ensures o.Crashed? ==> keys == []
    decreases |presses|
  {
    if presses == [] then (if keys == [] then Waiting(0) else Waiting(i))
    else
      match presses[0]
      case ArrowUp =>
        (match Move(i, Up, |keys|)
         case None => Crashed
         case Some(j) => Run(keys, j, presses[1..]))
      case ArrowDown =>
        (match Move(i, Down, |keys|)
         case None => Crashed
         case Some(j) => Run(keys, j, presses[1..]))
      case EnterKey => if i < |keys| then Chosen(keys[i]) else Crashed
      case EscapeKey => Cancelled
      case CtrlC => Cancelled
      case OtherKey => Run(keys, i, presses[1..])
  }

  /** `select_with_arrows` on a list of option keys, a default and the presses the user makes. */
  function Select(keys: seq<string>, default: Option<string>, presses: seq<KeyPress>): (o: Outcome)
    ensures o.Chosen? ==> o.key in keys
    ensures keys != [] ==> !o.Crashed?
  {
    var i := InitialIndex(keys, default);
    NoCrash(keys, i, presses);
    Run(keys, i, presses)
  }

  /** With at least one option the loop never crashes. */
  lemma {:induction false} NoCrash(keys: seq<string>, i: nat, presses: seq<KeyPress>)
    requires i < |keys| || (keys == [] && i == 0)
    ensures keys != [] ==> !Run(keys, i, presses).Crashed?
    decreases |presses|
  {
    if presses != [] && keys != [] {
      match presses[0]
      case ArrowUp => NoCrash(keys, Move(i, Up, |keys|).value, presses[1..]);
      case ArrowDown => NoCrash(keys, Move(i, Down, |keys|).value, presses[1..]);
      case EnterKey =>
      case EscapeKey =>
      case CtrlC =>
      case OtherKey => NoCrash(keys, i, presses[1..]);
    }
  }

  /** Pressing Enter straight away picks the default when it is one of the options. */
  lemma EnterPicksDefault(keys: seq<string>, d: string)
    requires d != "" && d in keys
    ensures Select(keys, Some(d), [EnterKey]) == Chosen(d)
  {
  }
}
