/** The primitive device commands the engine issues, and measures over logs of them. */
module Commands {

  /**
   * One call on the page's mouse or keyboard, or one `asyncio.sleep`.
   * `Move.steps` is Playwright's interpolation count; delays of clicks and key
   * presses are in milliseconds, sleeps in seconds.
   */
  datatype Command =
    | Move(x: real, y: real, steps: int)
    | Click(x: real, y: real, button: string, delay: real)
    | Press(key: string, delay: real)
    | Wheel(deltaX: real, deltaY: real)
    | Down
    | Up
    | Sleep(seconds: real)

  datatype Kind = MoveKind | ClickKind | PressKind | WheelKind | DownKind | UpKind | SleepKind

  function KindOf(c: Command): Kind
  {
    match c
    case Move(_, _, _) => MoveKind
    case Click(_, _, _, _) => ClickKind
    case Press(_, _) => PressKind
    case Wheel(_, _) => WheelKind
    case Down => DownKind
    case Up => UpKind
    case Sleep(_) => SleepKind
  }

  /** The number of commands of kind `k` in `s`. */
  function Count(s: seq<Command>, k: Kind): (n: nat)
    ensures n <= |s|
  {
    if s == [] then 0
    else Count(s[..|s| - 1], k) + (if KindOf(s[|s| - 1]) == k then 1 else 0)
  }

  lemma {:induction false} CountConcat(a: seq<Command>, b: seq<Command>, k: Kind)
    ensures Count(a + b, k) == Count(a, k) + Count(b, k)
    decreases |b|
  {
    if b == [] {
      assert a + b == a;
    } else {
      assert (a + b)[..|a + b| - 1] == a + b[..|b| - 1];
      CountConcat(a, b[..|b| - 1], k);
    }
  }

  lemma CountSingle(c: Command, k: Kind)
    ensures Count([c], k) == if KindOf(c) == k then 1 else 0
  {
    assert [c][..0] == [];
  }

  /** Counting in two parts, split at `j`. */
  lemma CountSplit(s: seq<Command>, j: int, k: Kind)
    requires 0 <= j <= |s|
    ensures Count(s, k) == Count(s[..j], k) + Count(s[j..], k)
  {
    assert s == s[..j] + s[j..];
    CountConcat(s[..j], s[j..], k);
  }

  /** Appending in two steps is appending once. */
  lemma AppendAssoc(s: seq<Command>, a: seq<Command>, b: seq<Command>)
    ensures (s + a) + b == s + (a + b)
  {
  }

  /** Kinds alternate: `first` at even positions, `second` at odd ones. */
  predicate Alternates(s: seq<Command>, first: Kind, second: Kind)
  {
    |s| % 2 == 0 &&
    forall i :: 0 <= i < |s| ==> KindOf(s[i]) == (if i % 2 == 0 then first else second)
  }

  lemma {:induction false} AlternatingCount(s: seq<Command>, first: Kind, second: Kind, k: Kind)
    requires Alternates(s, first, second) && first != second
    ensures Count(s, k) == if k == first || k == second then |s| / 2 else 0
    decreases |s|
  {
    if s != [] {
      AlternatesDropPair(s, first, second);
      AlternatingCount(s[..|s| - 2], first, second, k);
      CountLastTwo(s, k);
    }
  }

  /** An alternation with its last pair taken off is still one; the pair is `first`, `second`. */
  lemma AlternatesDropPair(s: seq<Command>, first: Kind, second: Kind)
    requires Alternates(s, first, second) && |s| >= 2
    ensures Alternates(s[..|s| - 2], first, second)
    ensures KindOf(s[|s| - 2]) == first && KindOf(s[|s| - 1]) == second
  {
    var t := s[..|s| - 2];
    forall i | 0 <= i < |t| ensures t[i] == s[i] { }
  }

  /** Counting with the last two commands taken off. */
  lemma CountLastTwo(s: seq<Command>, k: Kind)
    requires |s| >= 2
    ensures Count(s, k) == Count(s[..|s| - 2], k) + (if KindOf(s[|s| - 2]) == k then 1 else 0)
                                                 + (if KindOf(s[|s| - 1]) == k then 1 else 0)
  {
    var n := |s|;
    assert s[..n - 1][..n - 2] == s[..n - 2];
    assert s[..n - 1][n - 2] == s[n - 2];
  }

  lemma AlternatesConcat(a: seq<Command>, b: seq<Command>, first: Kind, second: Kind)
    requires Alternates(a, first, second) && Alternates(b, first, second)
    ensures Alternates(a + b, first, second)
  {
    forall i | |a| <= i < |a| + |b|
      ensures KindOf((a + b)[i]) == (if i % 2 == 0 then first else second)
    {
      assert (a + b)[i] == b[i - |a|];
      assert (i - |a|) % 2 == i % 2;
    }
  }

  /** Counting over an alternation followed by one more command. */
  lemma AlternatingThenCount(s: seq<Command>, first: Kind, second: Kind, k: Kind)
    requires |s| >= 1 && Alternates(s[..|s| - 1], first, second) && first != second
    ensures Count(s, k) == (if k == first || k == second then (|s| - 1) / 2 else 0) + (if KindOf(s[|s| - 1]) == k then 1 else 0)
  {
    AlternatingCount(s[..|s| - 1], first, second, k);
  }

  /** The commands of `s` are all of kinds in `ks`. */
  predicate OnlyKinds(s: seq<Command>, ks: set<Kind>)
  {
    forall i :: 0 <= i < |s| ==> KindOf(s[i]) in ks
  }

  /** The keys of the `Press` commands of `s`, in order. */
  function PressedKeys(s: seq<Command>): (keys: seq<string>)
    ensures |keys| == Count(s, PressKind)
  {
    if s == [] then []
    else PressedKeys(s[..|s| - 1]) + (if s[|s| - 1].Press? then [s[|s| - 1].key] else [])
  }

  lemma {:induction false} PressedKeysConcat(a: seq<Command>, b: seq<Command>)
    ensures PressedKeys(a + b) == PressedKeys(a) + PressedKeys(b)
    decreases |b|
  {
    if b == [] {
      assert a + b == a;
    } else {
      assert (a + b)[..|a + b| - 1] == a + b[..|b| - 1];
      PressedKeysConcat(a, b[..|b| - 1]);
    }
  }

  /** In a press/sleep alternation the `j`-th key pressed is that of position `2 * j`. */
  lemma {:induction false} PressedKeyAt(s: seq<Command>, j: nat)
    requires Alternates(s, PressKind, SleepKind) && j < |s| / 2
    ensures |PressedKeys(s)| == |s| / 2
    ensures PressedKeys(s)[j] == s[2 * j].key
    decreases |s|
  {
    var n := |s|;
    var t := s[..n - 2];
    AlternatesDropPair(s, PressKind, SleepKind);
    AlternatingCount(s, PressKind, SleepKind, PressKind);
    PressedKeysLastPair(s);
    var keys := PressedKeys(t);
    assert PressedKeys(s) == keys + [s[n - 2].key];
    if j < n / 2 - 1 {
      PressedKeyAt(t, j);
      assert keys[j] == t[2 * j].key;
      assert t[2 * j] == s[2 * j];
    } else {
      assert 2 * j == n - 2;
    }
  }

  /** A press followed by a non-press adds the one key. */
  lemma PressedKeysLastPair(s: seq<Command>)
    requires |s| >= 2 && s[|s| - 2].Press? && !s[|s| - 1].Press?
    ensures PressedKeys(s) == PressedKeys(s[..|s| - 2]) + [s[|s| - 2].key]
  {
    var n := |s|;
    assert s[..n - 1][..n - 2] == s[..n - 2];
    assert s[..n - 1][n - 2] == s[n - 2];
  }

  /** A prefix that presses nothing contributes no keys. */
  lemma PressedKeysAfterSilentPrefix(s: seq<Command>, j: int)
    requires 0 <= j <= |s| && Count(s[..j], PressKind) == 0
    ensures PressedKeys(s) == PressedKeys(s[j..])
    ensures Count(s, PressKind) == Count(s[j..], PressKind)
  {
    assert s == s[..j] + s[j..];
    PressedKeysConcat(s[..j], s[j..]);
    CountConcat(s[..j], s[j..], PressKind);
  }

  /** The vertical wheel deltas of `s`, summed. */
  function WheelTotal(s: seq<Command>): real
  {
    if s == [] then 0.0
    else WheelTotal(s[..|s| - 1]) + (if s[|s| - 1].Wheel? then s[|s| - 1].deltaY else 0.0)
  }

  /** Every sleep of `s` lasts at least `lo` seconds. */
  predicate SleepsAtLeast(s: seq<Command>, lo: real)
  {
    forall i :: 0 <= i < |s| && s[i].Sleep? ==> s[i].seconds >= lo
  }

  /** No sleep of `s` is negative. */
  predicate SleepsNonNegative(s: seq<Command>)
  {
    SleepsAtLeast(s, 0.0)
  }
}
