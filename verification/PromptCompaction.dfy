/**
 * One compaction of a prompt that overran the context window
 * (apps/scheduler/src/context-window-exceeded.ts: `compactPromptForContextWindowRetry`): keep the head, the
 * tail and the whole task contract, drop the middle.  The ratios 0.55, 0.4 and 0.2 are exact here.
 */
module PromptCompaction {
  const CHARS_PER_TOKEN := 4
  const DEFAULT_CONTEXT_WINDOW_TOKENS := 128000

  /** Longer than any JavaScript string. */
  const MAX_LENGTH := 0x20_0000_0000_0000

  /** The optional argument: absent, not finite, or a number. */
  datatype Window = Unset | NotFinite | Tokens(n: real)

  datatype Result =
    | Prompt(text: string, compacted: bool, before: nat, after: nat, budget: nat)
    | ContractTooLarge(required: nat, target: nat)

  function Estimate(length: nat): nat { (length + CHARS_PER_TOKEN - 1) / CHARS_PER_TOKEN }

  function Budget(w: Window): (b: nat)
    ensures b >= 1024
    ensures w.Tokens? && w.n >= 1024.0 ==> b as real <= w.n < b as real + 1.0
    ensures !(w.Tokens? && w.n >= 1024.0) ==> b == 128000
  {
    if w.Tokens? && w.n >= 1024.0 then w.n.Floor else DEFAULT_CONTEXT_WINDOW_TOKENS
  }

  function Max(a: int, b: int): int { if a < b then b else a }

  function Target(budget: nat): nat { Max(1024, budget * 55 / 100) }

  function Digits(n: nat): (s: string)
    ensures |s| == DigitCount(n)
  {
    if n < 10 then [DigitOf(n)] else Digits(n / 10) + [DigitOf(n % 10)]
  }

  function DigitOf(d: nat): char
    requires d < 10
  {
    '0' + d as char
  }

  /** The number a decimal numeral stands for. */
  function Read(s: string): int {
    if s == "" then 0 else 10 * Read(s[..|s| - 1]) + (s[|s| - 1] as int - '0' as int)
  }

  lemma {:induction false} DigitsRead(n: nat)
    ensures Read(Digits(n)) == n
  {
    if n >= 10 {
      DigitsRead(n / 10);
      assert Digits(n)[..|Digits(n)| - 1] == Digits(n / 10);
    } else {
      assert Digits(n)[..0] == "";
    }
  }

  function DigitCount(n: nat): nat { if n < 10 then 1 else 1 + DigitCount(n / 10) }

  function Marker(length: nat, estimate: nat, budget: nat): string {
    "\n\n[deepsonar:context_window_compact_retry omitted_middle chars=" + Digits(length)
    + " estimated_tokens=" + Digits(estimate) + " budget_tokens=" + Digits(budget) + "]\n\n"
  }

  /** `slice(0, n)` and `slice(n)`. */
  function Take(s: string, n: nat): string { if n < |s| then s[..n] else s }
  function Drop(s: string, n: nat): string { if n < |s| then s[n..] else "" }

  function HeadLength(available: nat): nat { Max(128, available * 4 / 10) }
  function TailLength(available: nat): nat { Max(64, available * 2 / 10) }

  /** Room for the ordinary context. */
  function Room(budget: nat, marker: nat, contract: nat): int { Target(budget) * CHARS_PER_TOKEN - marker - contract }

  function Shortened(prompt: string, marker: string, contract: string, available: nat): string {
    var headLength, tailLength := HeadLength(available), TailLength(available);
    Take(prompt, headLength) + marker + Drop(prompt, Max(headLength, |prompt| - tailLength)) + contract
  }

  predicate Overruns(length: nat, budget: nat) { Estimate(length) > Target(budget) }

  /** The compaction, given the text of the marker. */
  function CompactWith(prompt: string, contract: string, budget: nat, marker: string): Result {
    var full := prompt + contract;
    var before := Estimate(|full|);
    if !Overruns(|full|, budget) then Prompt(full, false, before, before, budget)
    else
      var remaining := Room(budget, |marker|, |contract|);
      if contract != "" && remaining < 256 then
        ContractTooLarge(Estimate(|contract + marker|) + 64, Target(budget))
      else
        var text := Shortened(prompt, marker, contract, Max(256, remaining));
        Prompt(text, true, before, Estimate(|text|), budget)
  }

  function MarkerFor(prompt: string, contract: string, w: Window): string {
    Marker(|prompt|, Estimate(|prompt + contract|), Budget(w))
  }

  function Compact(prompt: string, w: Window, contract: string): Result {
    CompactWith(prompt, contract, Budget(w), MarkerFor(prompt, contract, w))
  }

  lemma {:induction false} FewDigits(n: nat, k: nat)
    requires k >= 1 && n < Pow10(k)
    ensures DigitCount(n) <= k
  {
    if n >= 10 { FewDigits(n / 10, k - 1); }
  }

  function Pow10(k: nat): nat { if k == 0 then 1 else 10 * Pow10(k - 1) }

  lemma SixteenDigits(n: nat)
    requires n < 0x20_0000_0000_0000
    ensures DigitCount(n) <= 16
  {
    assert Pow10(16) == 1_0000_0000_0000_0000 by {
      assert Pow10(4) == 1_0000;
      assert Pow10(8) == 1_0000_0000;
      assert Pow10(12) == 1_0000_0000_0000;
    }
    FewDigits(n, 16);
  }

  /** When a prompt overruns, the marker is a small part of the room there is. */
  lemma MarkerIsShort(prompt: string, contract: string, w: Window)
    requires |prompt + contract| < MAX_LENGTH && Overruns(|prompt + contract|, Budget(w))
    ensures |MarkerFor(prompt, contract, w)| <= 160
  {
    SixteenDigits(|prompt|);
    SixteenDigits(Estimate(|prompt + contract|));
    SixteenDigits(Budget(w));
  }

  lemma EndsFit(length: nat, contract: nat, marker: nat, budget: nat)
    requires marker <= 160 && Overruns(length + contract, budget)
    requires contract == 0 || Room(budget, marker, contract) >= 256
    ensures var room := Room(budget, marker, contract);
      && room >= 256
      && HeadLength(room) + TailLength(room) <= room
      && HeadLength(room) + TailLength(room) < length
  {
  }

  lemma ShortenedShape(prompt: string, marker: string, contract: string, available: nat)
    requires HeadLength(available) + TailLength(available) < |prompt|
    ensures var head, tail := HeadLength(available), |prompt| - TailLength(available);
      && 128 <= head < tail <= |prompt| - 64
      && Shortened(prompt, marker, contract, available) == prompt[..head] + marker + prompt[tail..] + contract
  {
  }

  /**
   * A compacted prompt is a head of at least 128 characters, the marker, a tail of at least 64, and the
   * contract; head and tail do not meet.
   */
  ghost predicate Cut(prompt: string, contract: string, marker: string, room: nat, text: string) {
    var head, tail := HeadLength(room), |prompt| - TailLength(room);
    && 128 <= head < tail <= |prompt| - 64
    && text == prompt[..head] + marker + prompt[tail..] + contract
  }

  lemma CompactWithShape(prompt: string, contract: string, budget: nat, marker: string)
    requires |marker| <= 160
    ensures match CompactWith(prompt, contract, budget, marker)
      case ContractTooLarge(_, _) =>
        Overruns(|prompt + contract|, budget) && Room(budget, |marker|, |contract|) < 256
      case Prompt(text, compacted, before, after, b) =>
        && (compacted <==> Overruns(|prompt + contract|, budget))
        && before == Estimate(|prompt + contract|) && after == Estimate(|text|) && b == budget
        && |text| <= Target(budget) * CHARS_PER_TOKEN
        && (!compacted ==> text == prompt + contract)
        && (compacted ==>
              && Room(budget, |marker|, |contract|) >= 256
              && Cut(prompt, contract, marker, Room(budget, |marker|, |contract|), text))
  {
    if Overruns(|prompt + contract|, budget) {
      var room := Room(budget, |marker|, |contract|);
      if contract == "" || room >= 256 {
        EndsFit(|prompt|, |contract|, |marker|, budget);
        ShortenedShape(prompt, marker, contract, room);
      }
    }
  }

  lemma CutKeepsContract(prompt: string, contract: string, marker: string, room: nat, text: string)
    requires Cut(prompt, contract, marker, room, text)
    ensures |contract| <= |text| && text[|text| - |contract|..] == contract
  {
  }

  /**
   * What a successful result promises: it fits the target, which fits the budget, and ends in the whole
   * contract; if it was compacted it is strictly shorter than the input and consists of a head of at least
   * 128 characters, the marker, a tail of at least 64 that does not meet the head, and the contract.
   */
  ghost predicate Promise(prompt: string, contract: string, budget: nat, marker: string, r: Result)
    requires r.Prompt?
  {
    && r.before == Estimate(|prompt + contract|) && r.after == Estimate(|r.text|)
    && r.after <= Target(budget) <= r.budget == budget
    && |contract| <= |r.text| && r.text[|r.text| - |contract|..] == contract
    && (r.compacted <==> Overruns(|prompt + contract|, budget))
    && (r.compacted ==>
          && |r.text| < |prompt + contract| && r.after < r.before && Room(budget, |marker|, |contract|) >= 256
          && Cut(prompt, contract, marker, Room(budget, |marker|, |contract|), r.text))
    && (!r.compacted ==> r.text == prompt + contract)
  }

  lemma CompactWithFits(prompt: string, contract: string, budget: nat, marker: string)
    requires budget >= 1024 && (Overruns(|prompt + contract|, budget) ==> |marker| <= 160)
    ensures var r := CompactWith(prompt, contract, budget, marker);
      r.Prompt? ==> Promise(prompt, contract, budget, marker, r)
  {
    var r := CompactWith(prompt, contract, budget, marker);
    if r.Prompt? && r.compacted {
      CompactWithShape(prompt, contract, budget, marker);
      CutKeepsContract(prompt, contract, marker, Room(budget, |marker|, |contract|), r.text);
    }
  }

  lemma CompactFits(prompt: string, w: Window, contract: string)
    requires |prompt + contract| < MAX_LENGTH
    ensures var r := Compact(prompt, w, contract);
      r.Prompt? ==> Promise(prompt, contract, Budget(w), MarkerFor(prompt, contract, w), r)
  {
    if Overruns(|prompt + contract|, Budget(w)) { MarkerIsShort(prompt, contract, w); }
    CompactWithFits(prompt, contract, Budget(w), MarkerFor(prompt, contract, w));
  }

  /** `q` is `n` divided by four, rounded up. */
  predicate Quarter(q: int, n: int) { 4 * (q - 1) < n <= 4 * q }

  /** With a target of `target` tokens, and `room` characters left by marker and contract. */
  predicate InNumbers(prompt: string, contract: string, marker: string, budget: nat, target: int, room: int,
    head: nat, tail: nat, r: Result)
  {
    match r
    case ContractTooLarge(required, t) =>
      && |prompt + contract| > 4 * target && room < 256
      && t == target && Quarter(required - 64, |contract| + |marker|)
    case Prompt(text, compacted, before, after, b) =>
      && Quarter(before, |prompt + contract|) && Quarter(after, |text|) && b == budget
      && (compacted <==> |prompt + contract| > 4 * target)
      && (!compacted ==> text == prompt + contract)
      && (compacted ==>
            && room >= 256 && head + tail < |prompt|
            && text == prompt[..head] + marker + prompt[|prompt| - tail..] + contract)
  }

  /** The given percentage of the room, rounded down, but at least `least`. */
  predicate PartOf(n: nat, percent: nat, room: int, least: nat) {
    if percent * room < 100 * least then n == least else 100 * n <= percent * room < 100 * n + 100
  }

  /**
   * The whole outcome in numbers.  The target is 55 percent of the budget, at least 1024 tokens; a prompt of
   * no more than four times as many characters passes as it is.  Of what marker and contract leave, the head
   * takes 40 percent and the tail 20, but at least 128 and 64 characters; with less than 256 characters left
   * the call fails.
   */
  lemma CompactionInNumbers(prompt: string, w: Window, contract: string,
    target: nat, room: int, head: nat, tail: nat)
    requires |prompt + contract| < MAX_LENGTH
    requires PartOf(target, 55, Budget(w), 1024)
    requires room == 4 * target - |MarkerFor(prompt, contract, w)| - |contract|
    requires PartOf(head, 40, room, 128) && PartOf(tail, 20, room, 64)
    ensures InNumbers(prompt, contract, MarkerFor(prompt, contract, w), Budget(w), target, room, head, tail,
                      Compact(prompt, w, contract))
  {
    TargetIs(Budget(w), target);
    if Overruns(|prompt + contract|, Budget(w)) { MarkerIsShort(prompt, contract, w); }
    if room >= 256 { EndLengths(room, head, tail); }
    CompactWithInNumbers(prompt, contract, Budget(w), MarkerFor(prompt, contract, w), head, tail);
  }

  lemma CompactWithInNumbers(prompt: string, contract: string, budget: nat, marker: string, head: nat, tail: nat)
    requires Overruns(|prompt + contract|, budget) ==> |marker| <= 160
    requires var room := Room(budget, |marker|, |contract|);
      room >= 256 ==> head == HeadLength(room) && tail == TailLength(room)
    ensures InNumbers(prompt, contract, marker, budget, Target(budget), Room(budget, |marker|, |contract|), head, tail,
                      CompactWith(prompt, contract, budget, marker))
  {
    if Overruns(|prompt + contract|, budget) {
      if Room(budget, |marker|, |contract|) >= 256 { CutInNumbers(prompt, contract, budget, marker); }
      else { CompactWithShape(prompt, contract, budget, marker); }
    }
  }

  lemma TargetIs(budget: nat, target: nat)
    requires PartOf(target, 55, budget, 1024)
    ensures target == Target(budget)
  {
  }

  lemma CutInNumbers(prompt: string, contract: string, budget: nat, marker: string)
    requires |marker| <= 160 && Overruns(|prompt + contract|, budget) && Room(budget, |marker|, |contract|) >= 256
    ensures var room, r := Room(budget, |marker|, |contract|), CompactWith(prompt, contract, budget, marker);
      && r.Prompt? && r.compacted && HeadLength(room) + TailLength(room) < |prompt|
      && r.text == prompt[..HeadLength(room)] + marker + prompt[|prompt| - TailLength(room)..] + contract
  {
    CompactWithShape(prompt, contract, budget, marker);
  }

  lemma EndLengths(room: nat, head: nat, tail: nat)
    requires PartOf(head, 40, room, 128) && PartOf(tail, 20, room, 64)
    ensures head == HeadLength(room) && tail == TailLength(room)
  {
  }

  function RoomFor(prompt: string, contract: string, w: Window): int {
    Room(Budget(w), |MarkerFor(prompt, contract, w)|, |contract|)
  }

  /** The call fails exactly when the contract is what leaves too little room. */
  lemma FailsIff(prompt: string, w: Window, contract: string)
    requires |prompt + contract| < MAX_LENGTH
    ensures Compact(prompt, w, contract).ContractTooLarge? <==>
      Overruns(|prompt + contract|, Budget(w)) && RoomFor(prompt, contract, w) < 256
  {
    if Overruns(|prompt + contract|, Budget(w)) {
      MarkerIsShort(prompt, contract, w);
      CompactWithShape(prompt, contract, Budget(w), MarkerFor(prompt, contract, w));
    }
  }

  /** Compacting the result again leaves it as it is. */
  lemma CompactingTwice(prompt: string, w: Window, contract: string)
    requires |prompt + contract| < MAX_LENGTH && Compact(prompt, w, contract).Prompt?
    ensures var r := Compact(prompt, w, contract);
      Compact(r.text, w, "") == Prompt(r.text, false, r.after, r.after, r.budget)
  {
    CompactFits(prompt, w, contract);
    FittingIsKept(Compact(prompt, w, contract).text, Budget(w), MarkerFor(Compact(prompt, w, contract).text, "", w));
  }

  lemma FittingIsKept(text: string, budget: nat, marker: string)
    requires !Overruns(|text|, budget)
    ensures CompactWith(text, "", budget, marker) == Prompt(text, false, Estimate(|text|), Estimate(|text|), budget)
  {
    assert text + "" == text;
  }

  // ----- A larger window never keeps less ------------------------------------------------------------

  /** A number has more digits than its predecessor only at a power of ten. */
  lemma {:induction false} DigitStep(n: nat)
    ensures DigitCount(n) <= DigitCount(n + 1) <= DigitCount(n) + 1
    ensures DigitCount(n + 1) > DigitCount(n) && n >= 10 ==>
        (n + 1) % 10 == 0 && DigitCount((n + 1) / 10) > DigitCount(n / 10)
  {
    if n >= 10 {
      if (n + 1) / 10 != n / 10 {
        assert (n + 1) / 10 == n / 10 + 1;
        DigitStep(n / 10);
      }
    }
  }

  lemma DigitStepHundred(n: nat)
    requires n >= 100 && DigitCount(n + 1) > DigitCount(n)
    ensures (n + 1) % 100 == 0
  {
    DigitStep(n);
    assert (n + 1) / 10 == n / 10 + 1;
    DigitStep(n / 10);
  }

  /** The room gained with a larger budget pays for the extra digits in the marker. */
  lemma {:induction false} RoomGrows(a: nat, b: nat)
    requires 1024 <= a <= b
    ensures Target(a) <= Target(b)
    ensures Target(a) * CHARS_PER_TOKEN - DigitCount(a) <= Target(b) * CHARS_PER_TOKEN - DigitCount(b)
    decreases b
  {
    if a < b {
      RoomGrows(a, b - 1);
      RoomStep(b - 1);
    }
  }

  lemma RoomStep(n: nat)
    requires n >= 1024
    ensures Target(n) <= Target(n + 1)
    ensures Target(n) * CHARS_PER_TOKEN - DigitCount(n) <= Target(n + 1) * CHARS_PER_TOKEN - DigitCount(n + 1)
  {
    DigitStep(n);
    if DigitCount(n + 1) > DigitCount(n) {
      DigitStepHundred(n);
      if n >= 1999 { TargetJumps(n); } else { FourDigits(n); }
    }
  }

  lemma FourDigits(n: nat)
    requires 1000 <= n < 9999
    ensures DigitCount(n) == DigitCount(n + 1) == 4
  {
    ThreeMoreDigits(n);
    ThreeMoreDigits(n + 1);
  }

  lemma ThreeMoreDigits(n: nat)
    requires 1000 <= n < 10000
    ensures DigitCount(n) == 4
  {
    var a := n / 10;
    var b := a / 10;
    var c := b / 10;
    assert 100 <= a < 1000 && 10 <= b < 100 && 1 <= c < 10;
    assert DigitCount(c) == 1 && DigitCount(b) == 2 && DigitCount(a) == 3;
  }

  lemma TargetJumps(n: nat)
    requires n >= 1999 && (n + 1) % 100 == 0
    ensures Target(n) + 1 <= Target(n + 1)
  {
    var k := (n + 1) / 100;
    assert n + 1 == 100 * k && (n + 1) * 55 / 100 == 55 * k && n * 55 / 100 == 55 * k - 1;
  }

  lemma RoomForGrows(prompt: string, contract: string, small: Window, large: Window)
    requires Budget(small) <= Budget(large)
    ensures RoomFor(prompt, contract, small) <= RoomFor(prompt, contract, large)
    ensures Target(Budget(small)) <= Target(Budget(large))
  {
    RoomGrows(Budget(small), Budget(large));
  }

  lemma MoreRoomKeepsMore(prompt: string, contract: string, b: nat, m: string, b': nat, m': string)
    requires b >= 1024 && (Overruns(|prompt + contract|, b) ==> |m| <= 160)
    requires b' >= 1024 && (Overruns(|prompt + contract|, b') ==> |m'| <= 160)
    requires Target(b) <= Target(b') && Room(b, |m|, |contract|) <= Room(b', |m'|, |contract|)
    requires CompactWith(prompt, contract, b, m).Prompt?
    ensures KeepsMore(CompactWith(prompt, contract, b, m), Room(b, |m|, |contract|),
                      CompactWith(prompt, contract, b', m'), Room(b', |m'|, |contract|))
  {
    CompactWithFits(prompt, contract, b, m);
    CompactWithFits(prompt, contract, b', m');
    if Overruns(|prompt + contract|, b') { CompactWithShape(prompt, contract, b', m'); }
  }

  ghost predicate KeepsMore(r: Result, room: int, s: Result, moreRoom: int) {
    && r.Prompt? && s.Prompt?
    && (!r.compacted ==> !s.compacted)
    && (s.compacted ==>
          && 0 <= room <= moreRoom
          && HeadLength(room) <= HeadLength(moreRoom)
          && TailLength(room) <= TailLength(moreRoom))
  }

  /**
   * With a larger window a prompt that passed still passes, one that was left whole stays whole, and one
   * that is cut under both keeps at least as much at either end.
   */
  lemma LargerWindowKeepsMore(prompt: string, contract: string, small: Window, large: Window)
    requires |prompt + contract| < MAX_LENGTH && Budget(small) <= Budget(large)
    requires Compact(prompt, small, contract).Prompt?
    ensures KeepsMore(Compact(prompt, small, contract), RoomFor(prompt, contract, small),
                      Compact(prompt, large, contract), RoomFor(prompt, contract, large))
  {
    RoomForGrows(prompt, contract, small, large);
    if Overruns(|prompt + contract|, Budget(small)) { MarkerIsShort(prompt, contract, small); }
    if Overruns(|prompt + contract|, Budget(large)) { MarkerIsShort(prompt, contract, large); }
    MoreRoomKeepsMore(prompt, contract, Budget(small), MarkerFor(prompt, contract, small),
                      Budget(large), MarkerFor(prompt, contract, large));
  }
}
