/** The cron expression compiler and its bit masks (cron/internal/cron/matcher.go). */
module Cron {
  import opened Numeric

  // ---- Masks ----------------------------------------------------------------

  // The operations on masks, by name, so that proofs about values need not look into words.
  function Or(a: bv64, b: bv64): bv64 {
    a | b
  }

  function And(a: bv64, b: bv64): bv64 {
    a & b
  }

  function Double(a: bv64): bv64 {
    a << 1
  }

  // bitOf: one, shifted left place by place; a negative or too large amount leaves nothing.
  function BitOf(v: int): bv64 {
    if v < 0 || v > 63 then 0 else if v == 0 then 1 else Double(BitOf(v - 1))
  }

  predicate Bit(mask: bv64, v: int) {
    0 <= v <= 63 && And(mask, BitOf(v)) != 0
  }

  lemma DoubleApart(x: bv64, y: bv64)
    ensures And(x, y) == 0 ==> And(Double(x), Double(y)) == 0
    ensures And(1, Double(y)) == 0
    ensures Double(x) != 0 ==> x != 0
  {
  }

  lemma {:induction false} BitsDiffer(a: int, b: int)
    requires 0 <= a < b <= 63
    ensures And(BitOf(a), BitOf(b)) == 0
  {
    hide And, Double;
    if a == 0 {
      DoubleApart(0, BitOf(b - 1));
    } else {
      BitsDiffer(a - 1, b - 1);
      DoubleApart(BitOf(a - 1), BitOf(b - 1));
    }
  }

  lemma Up1(v: int, x: bv64)
    requires 0 <= v <= 62 && BitOf(v) == x
    ensures BitOf(v + 1) == x << 1
  {
  }

  lemma Up2(v: int, x: bv64)
    requires 0 <= v <= 61 && BitOf(v) == x
    ensures BitOf(v + 2) == x << 2
  {
    hide BitOf;
    Up1(v, x);
    Up1(v + 1, x << 1);
  }

  lemma Up4(v: int, x: bv64)
    requires 0 <= v <= 59 && BitOf(v) == x
    ensures BitOf(v + 4) == x << 4
  {
    hide BitOf;
    Up2(v, x);
    Up2(v + 2, x << 2);
  }

  lemma Up8(v: int, x: bv64)
    requires 0 <= v <= 55 && BitOf(v) == x
    ensures BitOf(v + 8) == x << 8
  {
    hide BitOf;
    Up4(v, x);
    Up4(v + 4, x << 4);
  }

  lemma Up16(v: int, x: bv64)
    requires 0 <= v <= 47 && BitOf(v) == x
    ensures BitOf(v + 16) == x << 16
  {
    hide BitOf;
    Up8(v, x);
    Up8(v + 8, x << 8);
  }

  lemma FirstBit()
    ensures BitOf(0) == 1
  {
  }

  lemma LastBit()
    ensures BitOf(63) == 0x8000_0000_0000_0000
  {
    hide BitOf;
    FirstBit();
    Up16(0, 1);
    Up16(16, 0x1_0000);
    Up16(32, 0x1_0000_0000);
    Up8(48, 0x1_0000_0000_0000);
    Up4(56, 0x100_0000_0000_0000);
    Up2(60, 0x1000_0000_0000_0000);
    Up1(62, 0x4000_0000_0000_0000);
  }

  lemma {:induction false} BitIsSet(v: int)
    requires 0 <= v <= 63
    ensures BitOf(v) != 0
    decreases 63 - v
  {
    hide And, Double;
    if v == 63 {
      LastBit();
    } else {
      BitIsSet(v + 1);
      DoubleApart(BitOf(v), 0);
    }
  }

  lemma WordDistributes(a: bv64, b: bv64, c: bv64)
    ensures (a | b) & c == (a & c) | (b & c)
  {
  }

  lemma WordAssociates(a: bv64, b: bv64, c: bv64)
    ensures (a | b) | c == a | (b | c)
  {
  }

  lemma OrIs(a: bv64, b: bv64)
    ensures Or(a, b) == a | b
  {
  }

  lemma AndIs(a: bv64, b: bv64)
    ensures And(a, b) == a & b
  {
  }

  lemma Distributes(a: bv64, b: bv64, c: bv64)
    ensures And(Or(a, b), c) == Or(And(a, c), And(b, c))
  {
    hide And, Or;
    OrIs(a, b);
    AndIs(a | b, c);
    AndIs(a, c);
    AndIs(b, c);
    OrIs(a & c, b & c);
    WordDistributes(a, b, c);
  }

  lemma Associates(a: bv64, b: bv64, c: bv64)
    ensures Or(Or(a, b), c) == Or(a, Or(b, c))
  {
    hide Or;
    OrIs(a, b);
    OrIs(b, c);
    OrIs(a | b, c);
    OrIs(a, b | c);
    WordAssociates(a, b, c);
  }

  lemma OrIsZero(a: bv64, b: bv64)
    ensures Or(a, b) == 0 <==> a == 0 && b == 0
  {
  }

  lemma MaskFacts(a: bv64, b: bv64)
    ensures Or(a, 0) == a && Or(0, a) == a && And(0, a) == 0 && And(a, a) == a && And(a, b) == And(b, a)
  {
  }

  lemma BitsOfOr(a: bv64, b: bv64, v: int)
    ensures Bit(Or(a, b), v) <==> Bit(a, v) || Bit(b, v)
  {
    hide BitOf, Or, And;
    Distributes(a, b, BitOf(v));
    OrIsZero(And(a, BitOf(v)), And(b, BitOf(v)));
  }

  lemma BitOfBit(a: int, v: int)
    ensures Bit(BitOf(a), v) <==> a == v && 0 <= v <= 63
    ensures !Bit(0, v)
  {
    hide BitOf, Or, And;
    MaskFacts(BitOf(v), BitOf(a));
    if 0 <= v <= 63 {
      BitIsSet(v);
      if 0 <= a <= 63 && a != v {
        BitsDiffer(if a < v then a else v, if a < v then v else a);
      } else if a != v {
        OutOfRange(a);
      }
    }
  }

  lemma OutOfRange(a: int)
    requires a < 0 || a > 63
    ensures BitOf(a) == 0
  {
  }

  // ---- Splitting ------------------------------------------------------------

  // strings.Split on a one-character separator.
  function Split(s: string, sep: char): seq<string> {
    if s == "" then [""]
    else if s[0] == sep then [""] + Split(s[1..], sep)
    else
      var rest := Split(s[1..], sep);
      if rest == [] then [s] else [[s[0]] + rest[0]] + rest[1..]
  }

  // strings.Fields: the maximal runs of characters that are no white space.
  function Fields(s: string): seq<string> {
    if s == "" then []
    else if IsSpace(s[0]) then Fields(s[1..])
    else if |s| == 1 || IsSpace(s[1]) then [[s[0]]] + Fields(s[1..])
    else
      var rest := Fields(s[1..]);
      if rest == [] then [s] else [[s[0]] + rest[0]] + rest[1..]
  }

  // strings.IndexByte
  function Index(s: string, c: char): (i: int)
    ensures -1 <= i < |s| && (i >= 0 ==> s[i] == c)
    ensures forall j :: 0 <= j < (if i < 0 then |s| else i) ==> s[j] != c
  {
    if s == "" then -1
    else if s[0] == c then 0
    else
      var i := Index(s[1..], c);
      if i < 0 then -1 else i + 1
  }

  // ---- Terms ----------------------------------------------------------------

  // A field's bounds; week marks the day of the week, where 7 is Sunday again.
  datatype Spec = Spec(name: string, min: int, max: int, week: bool)

  const MINUTE := Spec("minute", 0, 59, false)
  const HOUR := Spec("hour", 0, 23, false)
  const DAY := Spec("day-of-month", 1, 31, false)
  const MONTH := Spec("month", 1, 12, false)
  const WEEKDAY := Spec("day-of-week", 0, 7, true)

  // foldDOW
  function Fold(v: int, spec: Spec): int {
    if spec.week && v == 7 then 0 else v
  }

  datatype Term = Term(lo: int, hi: int, step: int)

  // The bounds that a range part denotes.
  function RangeOf(part: string, spec: Spec): Option<(int, int)> {
    if part == "*" then Some((spec.min, spec.max))
    else if Index(part, '-') >= 0 then
      var dash := Index(part, '-');
      var a, b := ParseInt64(part[..dash]), ParseInt64(part[dash + 1..]);
      if a.None? || b.None? then None else Some((a.value, b.value))
    else match ParseInt64(part)
      case None => None
      case Some(n) => Some((n, n))
  }

  function TermFrom(part: string, step: Option<int>, spec: Spec): Option<Term> {
    if part == "" || step.None? || step.value <= 0 then None
    else match RangeOf(part, spec)
      case None => None
      case Some((lo, hi)) => if lo > hi || lo < spec.min || hi > spec.max then None else Some(Term(lo, hi, step.value))
  }

  // The term that a text denotes; None when it is rejected.
  function TermOf(text: string, spec: Spec): Option<Term> {
    var slash := Index(text, '/');
    if slash >= 0 then TermFrom(text[..slash], ParseInt64(text[slash + 1..]), spec) else TermFrom(text, Some(1), spec)
  }

  lemma EmptyIsNoRange(spec: Spec)
    ensures RangeOf("", spec) == None
  {
  }

  predicate Sound(t: Term, spec: Spec) {
    spec.min <= t.lo <= t.hi <= spec.max && 0 < t.step < INT64_LIMIT
  }

  lemma TermIsSound(text: string, spec: Spec)
    requires TermOf(text, spec).Some?
    ensures Sound(TermOf(text, spec).value, spec)
  {
  }

  // ---- The loop over a term -------------------------------------------------

  // Go's int is 64 bits wide and wraps around.
  function Next(v: int, step: int): int {
    if v + step >= INT64_LIMIT then v + step - 2 * INT64_LIMIT else v + step
  }

  // Every round either comes nearer to the upper bound, or wraps around and comes out lower.
  function Rounds(v: int, hi: int, step: int): int {
    if step < INT64_LIMIT - 64 then hi - v + 1
    else if v >= 0 then 2 * v + 201
    else if v + step <= hi then 2 * (v + step) + 202
    else 0
  }

  predicate InLoop(v: int, hi: int, step: int) {
    hi <= 63 && 0 < step < INT64_LIMIT && v < INT64_LIMIT &&
    (v < 0 ==> step >= INT64_LIMIT - 64 && -INT64_LIMIT <= v && (v + step <= hi ==> -64 <= v + step < 64))
  }

  lemma LoopStays(v: int, hi: int, step: int)
    requires InLoop(v, hi, step) && v <= hi
    ensures InLoop(Next(v, step), hi, step)
    ensures Next(v, step) <= hi ==> 0 <= Rounds(Next(v, step), hi, step) < Rounds(v, hi, step)
  {
  }

  // The mask that the loop collects from v on.
  function TermBits(v: int, hi: int, step: int, spec: Spec): bv64
    requires InLoop(v, hi, step)
    decreases if v > hi then -1 else Rounds(v, hi, step)
  {
    if v > hi then 0
    else
      LoopStays(v, hi, step);
      Or(BitOf(Fold(v, spec)), TermBits(Next(v, step), hi, step, spec))
  }

  function TermMask(t: Term, spec: Spec): bv64
    requires Sound(t, spec) && 0 <= spec.min && spec.max <= 63
  {
    TermBits(t.lo, t.hi, t.step, spec)
  }

  // ---- What a term means ----------------------------------------------------

  function Nth(lo: int, step: int, k: nat): int {
    lo + k * step
  }

  // The arithmetic progression that a term writes down.
  ghost predicate InProgression(lo: int, hi: int, step: int, u: int) {
    u <= hi && exists k: nat :: u == Nth(lo, step, k)
  }

  ghost predicate InTerm(t: Term, spec: Spec, v: int) {
    exists u :: InProgression(t.lo, t.hi, t.step, u) && Fold(u, spec) == v
  }

  lemma ProgressionStep(lo: int, hi: int, step: int, u: int)
    requires step > 0
    ensures lo <= hi ==> (InProgression(lo, hi, step, u) <==> u == lo || InProgression(lo + step, hi, step, u))
    ensures lo > hi ==> !InProgression(lo, hi, step, u)
  {
    assert Nth(lo, step, 0) == lo;
    if InProgression(lo, hi, step, u) {
      var k: nat :| u == Nth(lo, step, k);
      NthFacts(lo, step, k);
      assert k > 0 ==> u == Nth(lo + step, step, k - 1);
    }
    if InProgression(lo + step, hi, step, u) {
      var k: nat :| u == Nth(lo + step, step, k);
      NthFacts(lo, step, k + 1);
      assert u == Nth(lo, step, k + 1);
    }
  }

  lemma NthFacts(lo: int, step: int, k: nat)
    requires step > 0
    ensures Nth(lo, step, k) >= lo
    ensures k > 0 ==> Nth(lo, step, k) == Nth(lo + step, step, k - 1)
  {
    Grows(k, step);
  }

  lemma Grows(k: nat, step: int)
    requires step > 0
    ensures k * step >= 0
  {
  }

  // The step does not carry the loop past the end of the integers and back into the field.
  predicate NoWrapInto(lo: int, step: int) {
    lo + 2 * step < 2 * INT64_LIMIT
  }

  // While it does not wrap, the loop collects the progression, folded.
  lemma {:induction false} BitsOfProgression(lo: int, hi: int, step: int, spec: Spec, v: int)
    requires 0 <= lo <= 63 && hi <= 63 && 0 < step < INT64_LIMIT && NoWrapInto(lo, step)
    ensures Bit(TermBits(lo, hi, step, spec), v) <==> 0 <= v <= 63 && exists u :: InProgression(lo, hi, step, u) && Fold(u, spec) == v
    decreases hi - lo
  {
    hide Bit, BitOf, Fold, InProgression, Or;
    if lo > hi {
      BitOfBit(0, v);
      NothingInside(lo, hi, step);
    } else {
      ProgressionUnfolds(lo, hi, step, spec, v);
      LoopStays(lo, hi, step);
      var rest := TermBits(Next(lo, step), hi, step, spec);
      BitsOfOr(BitOf(Fold(lo, spec)), rest, v);
      BitOfBit(Fold(lo, spec), v);
      if lo + step <= 63 {
        BitsOfProgression(lo + step, hi, step, spec, v);
      } else {
        OnceRound(lo, hi, step, spec);
        BitOfBit(0, v);
        NothingInside(lo + step, hi, step);
      }
    }
  }

  lemma NothingInside(lo: int, hi: int, step: int)
    requires lo > hi && step > 0
    ensures forall u :: !InProgression(lo, hi, step, u)
  {
    hide InProgression;
    forall u
      ensures !InProgression(lo, hi, step, u)
    {
      ProgressionStep(lo, hi, step, u);
    }
  }

  lemma ProgressionUnfolds(lo: int, hi: int, step: int, spec: Spec, v: int)
    requires lo <= hi && step > 0
    ensures (exists u :: InProgression(lo, hi, step, u) && Fold(u, spec) == v) <==>
            Fold(lo, spec) == v || exists u :: InProgression(lo + step, hi, step, u) && Fold(u, spec) == v
  {
    hide InProgression, Fold;
    forall u
      ensures InProgression(lo, hi, step, u) <==> u == lo || InProgression(lo + step, hi, step, u)
    {
      ProgressionStep(lo, hi, step, u);
    }
    assert InProgression(lo, hi, step, lo);
  }

  // A step out of the field leads out of the loop, at once or over a wrap-around.
  lemma OnceRound(lo: int, hi: int, step: int, spec: Spec)
    requires 0 <= lo <= 63 && hi <= 63 && 0 < step < INT64_LIMIT && NoWrapInto(lo, step) && lo + step > 63 && lo <= hi
    ensures InLoop(Next(lo, step), hi, step) && TermBits(Next(lo, step), hi, step, spec) == 0
  {
    LoopStays(lo, hi, step);
    var v1 := Next(lo, step);
    if v1 < 0 {
      LoopStays(v1, hi, step);
      var v2 := Next(v1, step);
      LoopStays(v2, hi, step);
      OutOfRange(v1);
      OutOfRange(v2);
      MaskFacts(0, 0);
      hide BitOf, Or;
      assert TermBits(Next(v2, step), hi, step, spec) == 0;
      assert TermBits(v2, hi, step, spec) == 0;
    }
  }

  lemma LoopUnfolds(v: int, hi: int, step: int, spec: Spec)
    requires InLoop(v, hi, step) && v <= hi
    ensures InLoop(Next(v, step), hi, step)
    ensures TermBits(v, hi, step, spec) == Or(BitOf(Fold(v, spec)), TermBits(Next(v, step), hi, step, spec))
  {
    hide BitOf, Or, Fold;
    LoopStays(v, hi, step);
  }

  // A step near the end of the integers leads round: over a negative value, of which nothing is
  // collected, back to a value that lies this far below.
  function Setback(step: int): int {
    2 * (INT64_LIMIT - step)
  }

  lemma ComesRound(lo: int, hi: int, step: int, spec: Spec, v: int)
    requires 0 <= lo <= hi <= 63 && 0 < step < INT64_LIMIT && !NoWrapInto(lo, step)
    ensures 0 <= lo - Setback(step) < lo
    ensures Bit(TermBits(lo, hi, step, spec), v) <==> Fold(lo, spec) == v || Bit(TermBits(lo - Setback(step), hi, step, spec), v)
  {
    var v1, v2 := Next(lo, step), lo - Setback(step);
    assert v1 < 0 && Next(v1, step) == v2;
    FoldOfNegative(v1, spec);
    FoldStays(lo, spec);
    hide Bit, BitOf, Or, TermBits, Fold;
    LoopUnfolds(lo, hi, step, spec);
    LoopUnfolds(v1, hi, step, spec);
    hide InLoop, Next;
    BitsOfOr(BitOf(Fold(v1, spec)), TermBits(v2, hi, step, spec), v);
    BitsOfOr(BitOf(Fold(lo, spec)), TermBits(v1, hi, step, spec), v);
    BitOfBit(Fold(lo, spec), v);
    BitOfBit(Fold(v1, spec), v);
  }

  lemma FoldOfNegative(v: int, spec: Spec)
    requires v < 0
    ensures Fold(v, spec) == v
  {
  }

  lemma FoldStays(v: int, spec: Spec)
    requires 0 <= v <= 63
    ensures 0 <= Fold(v, spec) <= 63
  {
  }

  lemma CollectsFirst(v: int, hi: int, step: int, spec: Spec)
    requires 0 <= v <= hi <= 63 && 0 < step < INT64_LIMIT
    ensures Bit(TermBits(v, hi, step, spec), Fold(v, spec))
  {
    FoldStays(v, spec);
    LoopUnfolds(v, hi, step, spec);
    hide Bit, BitOf, Or, TermBits, Fold, Next;
    BitOfBit(Fold(v, spec), Fold(v, spec));
    BitsOfOr(BitOf(Fold(v, spec)), TermBits(Next(v, step), hi, step, spec), Fold(v, spec));
  }

  // Otherwise the loop comes back into the field at a lower value, which the term does not contain.
  lemma WrapsInto(lo: int, hi: int, step: int, spec: Spec)
    requires 0 <= lo <= hi <= 63 && 0 < step < INT64_LIMIT && !NoWrapInto(lo, step)
    ensures Bit(TermBits(lo, hi, step, spec), Fold(lo + 2 * step - 2 * INT64_LIMIT, spec))
    ensures !exists u :: InProgression(lo, hi, step, u) && Fold(u, spec) == Fold(lo + 2 * step - 2 * INT64_LIMIT, spec)
  {
    var v := lo - Setback(step);
    ComesRound(lo, hi, step, spec, Fold(v, spec));
    CollectsFirst(v, hi, step, spec);
    hide Bit, TermBits, InProgression;
    OnlyFirst(lo, hi, step);
  }

  lemma OnlyFirst(lo: int, hi: int, step: int)
    requires 0 <= lo <= hi <= 63 && step > 63
    ensures forall u :: InProgression(lo, hi, step, u) <==> u == lo
  {
    NothingInside(lo + step, hi, step);
    forall u
      ensures InProgression(lo, hi, step, u) <==> u == lo
    {
      ProgressionStep(lo, hi, step, u);
    }
  }

  predicate Small(spec: Spec) {
    0 <= spec.min <= spec.max <= 63
  }

  // A term's mask is its progression exactly when the step does not wrap into the field.
  lemma TermIsExact(t: Term, spec: Spec)
    requires Small(spec) && Sound(t, spec)
    ensures (forall v :: Bit(TermMask(t, spec), v) <==> InTerm(t, spec, v)) <==> NoWrapInto(t.lo, t.step)
  {
    hide Bit, TermBits, NoWrapInto, InProgression;
    if NoWrapInto(t.lo, t.step) {
      forall v
        ensures Bit(TermMask(t, spec), v) <==> InTerm(t, spec, v)
      {
        BitsOfProgression(t.lo, t.hi, t.step, spec, v);
        InsideWord(t, spec);
      }
    } else {
      WrapsInto(t.lo, t.hi, t.step, spec);
      var v := Fold(t.lo + 2 * t.step - 2 * INT64_LIMIT, spec);
      assert Bit(TermMask(t, spec), v) && !InTerm(t, spec, v);
    }
  }

  // Where the loop is after the k-th time round.
  function Back(lo: int, step: int, k: nat): int {
    lo - k * Setback(step)
  }

  // The loop comes round to the value, again and again below where it was.
  ghost predicate ComesTo(lo: int, step: int, spec: Spec, v: int) {
    exists k: nat :: Back(lo, step, k) >= 0 && Fold(Back(lo, step, k), spec) == v
  }

  // The same, with at least one time round: the values that the loop adds to its progression.
  ghost predicate Strays(t: Term, spec: Spec, v: int) {
    exists k: nat :: k >= 1 && Back(t.lo, t.step, k) >= 0 && Fold(Back(t.lo, t.step, k), spec) == v
  }

  lemma BackFacts(lo: int, step: int, k: nat)
    requires step < INT64_LIMIT
    ensures Back(lo, step, 0) == lo && Back(lo, step, k) <= lo
    ensures k >= 1 ==> Back(lo, step, k) == Back(lo - Setback(step), step, k - 1)
  {
    Grows(k, Setback(step));
  }

  lemma ComesToFirst(lo: int, step: int, spec: Spec, v: int)
    requires 0 <= lo && step < INT64_LIMIT
    ensures ComesTo(lo, step, spec, v) <==> Fold(lo, spec) == v || ComesTo(lo - Setback(step), step, spec, v)
  {
    hide Fold, Setback, Back;
    BackFacts(lo, step, 0);
    if ComesTo(lo, step, spec, v) {
      var k: nat :| Back(lo, step, k) >= 0 && Fold(Back(lo, step, k), spec) == v;
      BackFacts(lo, step, k);
    }
    if ComesTo(lo - Setback(step), step, spec, v) {
      var k: nat :| Back(lo - Setback(step), step, k) >= 0 && Fold(Back(lo - Setback(step), step, k), spec) == v;
      BackFacts(lo, step, k + 1);
    }
  }

  lemma ComesToNothing(lo: int, step: int, spec: Spec, v: int)
    requires lo < 0 && step < INT64_LIMIT
    ensures !ComesTo(lo, step, spec, v)
  {
    hide Fold, Back;
    forall k: nat
      ensures Back(lo, step, k) < 0
    {
      BackFacts(lo, step, k);
    }
  }

  lemma StraysAre(t: Term, spec: Spec, v: int)
    requires t.step < INT64_LIMIT
    ensures Strays(t, spec, v) <==> ComesTo(t.lo - Setback(t.step), t.step, spec, v)
  {
    hide Fold, Setback, Back;
    if Strays(t, spec, v) {
      var k: nat :| k >= 1 && Back(t.lo, t.step, k) >= 0 && Fold(Back(t.lo, t.step, k), spec) == v;
      BackFacts(t.lo, t.step, k);
    }
    if ComesTo(t.lo - Setback(t.step), t.step, spec, v) {
      var k: nat :| Back(t.lo - Setback(t.step), t.step, k) >= 0 && Fold(Back(t.lo - Setback(t.step), t.step, k), spec) == v;
      BackFacts(t.lo, t.step, k + 1);
    }
  }

  // A loop with such a step collects the values it comes to.
  lemma {:induction false} LoopCollects(lo: int, hi: int, step: int, spec: Spec, v: int)
    requires 0 <= lo <= hi <= 63 && 63 < step < INT64_LIMIT
    ensures Bit(TermBits(lo, hi, step, spec), v) <==> ComesTo(lo, step, spec, v)
    decreases lo
  {
    hide Bit, TermBits, Fold, InProgression, ComesTo;
    ComesToFirst(lo, step, spec, v);
    if NoWrapInto(lo, step) {
      BitsOfProgression(lo, hi, step, spec, v);
      OnlyFirst(lo, hi, step);
      FoldStays(lo, spec);
      ComesToNothing(lo - Setback(step), step, spec, v);
    } else {
      ComesRound(lo, hi, step, spec, v);
      LoopCollects(lo - Setback(step), hi, step, spec, v);
    }
  }

  // The mask of any accepted term: its progression, and the values it strays to.
  lemma TermMaskIs(t: Term, spec: Spec, v: int)
    requires Small(spec) && Sound(t, spec)
    ensures Bit(TermMask(t, spec), v) <==> InTerm(t, spec, v) || Strays(t, spec, v)
  {
    hide Bit, TermBits, InProgression, Fold, ComesTo, Strays;
    StraysAre(t, spec, v);
    if NoWrapInto(t.lo, t.step) {
      BitsOfProgression(t.lo, t.hi, t.step, spec, v);
      InsideWord(t, spec);
      ComesToNothing(t.lo - Setback(t.step), t.step, spec, v);
    } else {
      LoopCollects(t.lo, t.hi, t.step, spec, v);
      ComesToFirst(t.lo, t.step, spec, v);
      OnlyFirst(t.lo, t.hi, t.step);
    }
  }

  lemma InsideWord(t: Term, spec: Spec)
    requires Small(spec) && Sound(t, spec)
    ensures forall v :: InTerm(t, spec, v) ==> 0 <= v <= 63
  {
    forall u | InProgression(t.lo, t.hi, t.step, u)
      ensures t.lo <= u
    {
      var k: nat :| u == Nth(t.lo, t.step, k);
      NthFacts(t.lo, t.step, k);
    }
    hide InProgression;
  }

  // ---- Fields ---------------------------------------------------------------

  // The terms of a comma list; None when one is rejected.
  function TermsOf(texts: seq<string>, spec: Spec): Option<seq<Term>> {
    if texts == [] then Some([])
    else
      var front := TermsOf(texts[..|texts| - 1], spec);
      var last := TermOf(texts[|texts| - 1], spec);
      if front.None? || last.None? || texts[|texts| - 1] == "" then None else Some(front.value + [last.value])
  }

  predicate AllSound(terms: seq<Term>, spec: Spec) {
    forall t :: t in terms ==> Sound(t, spec)
  }

  lemma {:induction false} TermsAreSound(texts: seq<string>, spec: Spec)
    requires TermsOf(texts, spec).Some?
    ensures AllSound(TermsOf(texts, spec).value, spec)
  {
    hide TermOf, Sound;
    if texts != [] {
      TermsAreSound(texts[..|texts| - 1], spec);
      TermIsSound(texts[|texts| - 1], spec);
    }
  }

  function MaskOf(terms: seq<Term>, spec: Spec): bv64
    requires Small(spec) && AllSound(terms, spec)
  {
    if terms == [] then 0 else Or(MaskOf(terms[..|terms| - 1], spec), TermMask(terms[|terms| - 1], spec))
  }

  ghost predicate InField(terms: seq<Term>, spec: Spec, v: int) {
    exists t :: t in terms && InTerm(t, spec, v)
  }

  predicate Unwrapped(terms: seq<Term>) {
    forall t :: t in terms ==> NoWrapInto(t.lo, t.step)
  }

  ghost predicate FieldStrays(terms: seq<Term>, spec: Spec, v: int) {
    exists t :: t in terms && Strays(t, spec, v)
  }

  // The mask of any accepted field: what its terms mean, and where they stray to.
  lemma {:induction false} FieldMaskIs(terms: seq<Term>, spec: Spec, v: int)
    requires Small(spec) && AllSound(terms, spec)
    ensures Bit(MaskOf(terms, spec), v) <==> InField(terms, spec, v) || FieldStrays(terms, spec, v)
  {
    hide Bit, Or, TermMask, Sound, InTerm, Strays;
    if terms == [] {
      BitOfBit(0, v);
    } else {
      var front, last := terms[..|terms| - 1], terms[|terms| - 1];
      FieldMaskIs(front, spec, v);
      TermMaskIs(last, spec, v);
      BitsOfOr(MaskOf(front, spec), TermMask(last, spec), v);
      assert terms == front + [last];
    }
  }

  // A field's mask is the union of its terms exactly when these mean whatever they stray to.
  lemma FieldIsExact(terms: seq<Term>, spec: Spec)
    requires Small(spec) && AllSound(terms, spec)
    ensures (forall v :: Bit(MaskOf(terms, spec), v) <==> InField(terms, spec, v)) <==>
            (forall v :: FieldStrays(terms, spec, v) ==> InField(terms, spec, v))
    ensures Unwrapped(terms) ==> forall v :: !FieldStrays(terms, spec, v)
  {
    hide Bit, MaskOf, InField, FieldStrays, AllSound;
    forall v
      ensures Bit(MaskOf(terms, spec), v) <==> InField(terms, spec, v) || FieldStrays(terms, spec, v)
      ensures Unwrapped(terms) ==> !FieldStrays(terms, spec, v)
    {
      FieldMaskIs(terms, spec, v);
      if Unwrapped(terms) {
        UnwrappedStays(terms, spec, v);
      }
    }
  }

  lemma UnwrappedStays(terms: seq<Term>, spec: Spec, v: int)
    requires AllSound(terms, spec) && Unwrapped(terms)
    ensures !FieldStrays(terms, spec, v)
  {
    hide Strays, ComesTo;
    forall t | t in terms
      ensures !Strays(t, spec, v)
    {
      StraysAre(t, spec, v);
      ComesToNothing(t.lo - Setback(t.step), t.step, spec, v);
    }
  }

  // ---- Expressions ----------------------------------------------------------

  datatype Schedule = Schedule(minute: bv64, hour: bv64, day: bv64, month: bv64, weekday: bv64, dayRestricted: bool, weekdayRestricted: bool)

  // An expression is refused for its number of fields, or for the first field that does not compile.
  datatype Parsed = Compiled(schedule: Schedule) | WrongCount(count: nat) | BadField(name: string)

  function FieldOf(field: string, spec: Spec): Option<seq<Term>> {
    if field == "" then None else TermsOf(Split(field, ','), spec)
  }

  const SPECS := [MINUTE, HOUR, DAY, MONTH, WEEKDAY]

  // The first field from the i-th on that does not compile.
  function FirstBad(fields: seq<string>, i: nat): (bad: nat)
    requires |fields| == 5 && i <= 5
    ensures i <= bad <= 5
    decreases 5 - i
  {
    if i == 5 || FieldOf(fields[i], SPECS[i]).None? then i else FirstBad(fields, i + 1)
  }

  lemma {:induction false} GoodUpTo(fields: seq<string>, i: nat, j: nat)
    requires |fields| == 5 && i <= 5 && i <= j < FirstBad(fields, i)
    ensures j < 5 && FieldOf(fields[j], SPECS[j]).Some?
    decreases 5 - i
  {
    hide FieldOf;
    if i < j {
      GoodUpTo(fields, i + 1, j);
    }
  }

  function FieldMask(field: string, spec: Spec): bv64
    requires Small(spec) && FieldOf(field, spec).Some?
  {
    TermsAreSound(Split(field, ','), spec);
    MaskOf(FieldOf(field, spec).value, spec)
  }

  // Parse
  function ParsedOf(expr: string): Parsed {
    var fields := Fields(TrimSpace(expr));
    if |fields| != 5 then WrongCount(|fields|)
    else if FirstBad(fields, 0) < 5 then BadField(SPECS[FirstBad(fields, 0)].name)
    else
      GoodUpTo(fields, 0, 0);
      GoodUpTo(fields, 0, 1);
      GoodUpTo(fields, 0, 2);
      GoodUpTo(fields, 0, 3);
      GoodUpTo(fields, 0, 4);
      Compiled(Schedule(FieldMask(fields[0], MINUTE), FieldMask(fields[1], HOUR), FieldMask(fields[2], DAY),
                        FieldMask(fields[3], MONTH), FieldMask(fields[4], WEEKDAY), fields[2] != "*", fields[4] != "*"))
  }

  // A minute of the calendar, in UTC.
  datatype Moment = Moment(minute: int, hour: int, day: int, month: int, weekday: int)

  // Matches
  predicate Matches(s: Schedule, m: Moment) {
    Bit(s.minute, m.minute) && Bit(s.hour, m.hour) && Bit(s.month, m.month) &&
    if s.dayRestricted && s.weekdayRestricted then Bit(s.day, m.day) || Bit(s.weekday, m.weekday)
    else Bit(s.day, m.day) && Bit(s.weekday, m.weekday)
  }

  method ParseTerm(text: string, spec: Spec) returns (r: Option<bv64>)
    requires Small(spec)
    ensures r.Some? <==> TermOf(text, spec).Some?
    ensures r.Some? ==> Sound(TermOf(text, spec).value, spec) && r.value == TermMask(TermOf(text, spec).value, spec)
  {
    hide BitOf, Or, RangeOf;
    var rangePart, step := text, 1;
    var slash := Index(text, '/');
    if slash >= 0 {
      rangePart := text[..slash];
      if rangePart == "" {
        return None;
      }
      var n := ParseInt64(text[slash + 1..]);
      if n.None? || n.value <= 0 {
        return None;
      }
      step := n.value;
    }
    EmptyIsNoRange(spec);
    var bounds := RangeOf(rangePart, spec);
    if bounds.None? {
      return None;
    }
    var (lo, hi) := bounds.value;
    if lo > hi {
      return None;
    }
    if lo < spec.min || hi > spec.max {
      return None;
    }
    var mask: bv64 := CollectBits(lo, hi, step, spec);
    return Some(mask);
  }

  // The loop of parseTerm.
  method CollectBits(lo: int, hi: int, step: int, spec: Spec) returns (mask: bv64)
    requires 0 <= lo <= hi <= 63 && 0 < step < INT64_LIMIT
    ensures mask == TermBits(lo, hi, step, spec)
  {
    hide BitOf, Or;
    mask := 0;
    var v := lo;
    MaskFacts(TermBits(lo, hi, step, spec), 0);
    while v <= hi
      invariant InLoop(v, hi, step)
      invariant Or(mask, TermBits(v, hi, step, spec)) == TermBits(lo, hi, step, spec)
      decreases if v > hi then -1 else Rounds(v, hi, step)
    {
      LoopStays(v, hi, step);
      Associates(mask, BitOf(Fold(v, spec)), TermBits(Next(v, step), hi, step, spec));
      mask := Or(mask, BitOf(Fold(v, spec)));
      v := Next(v, step);
    }
    MaskFacts(mask, 0);
  }

  method ParseField(field: string, spec: Spec) returns (r: Option<(bv64, bool)>)
    requires Small(spec)
    ensures r.Some? <==> FieldOf(field, spec).Some?
    ensures r.Some? ==> r.value == (FieldMask(field, spec), field != "*")
  {
    hide Or, TermMask, TermOf, Sound;
    if field == "" {
      return None;
    }
    var texts := Split(field, ',');
    var mask: bv64 := 0;
    for i := 0 to |texts|
      invariant TermsOf(texts[..i], spec).Some?
      invariant AllSound(TermsOf(texts[..i], spec).value, spec) && mask == MaskOf(TermsOf(texts[..i], spec).value, spec)
    {
      assert texts[..i + 1][..i] == texts[..i];
      if texts[i] == "" {
        RejectedStays(texts, i + 1, spec);
        return None;
      }
      var m := ParseTerm(texts[i], spec);
      if m.None? {
        RejectedStays(texts, i + 1, spec);
        return None;
      }
      TermsAreSound(texts[..i + 1], spec);
      var front := TermsOf(texts[..i], spec).value;
      assert (front + [TermOf(texts[i], spec).value])[..|front|] == front;
      mask := Or(mask, m.value);
    }
    assert texts[..|texts|] == texts;
    return Some((mask, field != "*"));
  }

  lemma {:induction false} RejectedStays(texts: seq<string>, n: nat, spec: Spec)
    requires n <= |texts| && TermsOf(texts[..n], spec).None?
    ensures TermsOf(texts, spec).None?
    decreases |texts|
  {
    hide TermOf;
    if n < |texts| {
      assert texts[..|texts| - 1][..n] == texts[..n];
      RejectedStays(texts[..|texts| - 1], n, spec);
    } else {
      assert texts[..n] == texts;
    }
  }

  method Parse(expr: string) returns (p: Parsed)
    ensures p == ParsedOf(expr)
  {
    hide FieldOf, FieldMask, Fields, TrimSpace;
    var fields := Fields(TrimSpace(expr));
    if |fields| != 5 {
      return WrongCount(|fields|);
    }
    var minute := ParseField(fields[0], MINUTE);
    if minute.None? {
      return BadField(MINUTE.name);
    }
    var hour := ParseField(fields[1], HOUR);
    if hour.None? {
      return BadField(HOUR.name);
    }
    var day := ParseField(fields[2], DAY);
    if day.None? {
      return BadField(DAY.name);
    }
    var month := ParseField(fields[3], MONTH);
    if month.None? {
      return BadField(MONTH.name);
    }
    var weekday := ParseField(fields[4], WEEKDAY);
    if weekday.None? {
      return BadField(WEEKDAY.name);
    }
    return Compiled(Schedule(minute.value.0, hour.value.0, day.value.0, month.value.0, weekday.value.0, day.value.1, weekday.value.1));
  }

  // ---- What an expression means ---------------------------------------------

  // The terms of the five fields of an accepted expression.
  function FieldTerms(expr: string, i: nat): seq<Term>
    requires i < 5
  {
    var fields := Fields(TrimSpace(expr));
    if |fields| == 5 && FieldOf(fields[i], SPECS[i]).Some? then FieldOf(fields[i], SPECS[i]).value else []
  }

  ghost predicate FieldMeans(expr: string, i: nat, v: int)
    requires i < 5
  {
    InField(FieldTerms(expr, i), SPECS[i], v)
  }

  // A moment is meant when minute, hour and month are, and the day is by both day fields, or by
  // either of them when neither is a bare star.
  ghost predicate Means(expr: string, m: Moment) {
    var fields := Fields(TrimSpace(expr));
    |fields| == 5 && FieldMeans(expr, 0, m.minute) && FieldMeans(expr, 1, m.hour) && FieldMeans(expr, 3, m.month) &&
    if fields[2] != "*" && fields[4] != "*" then FieldMeans(expr, 2, m.day) || FieldMeans(expr, 4, m.weekday)
    else FieldMeans(expr, 2, m.day) && FieldMeans(expr, 4, m.weekday)
  }

  ghost predicate StraysTo(expr: string, i: nat, v: int)
    requires i < 5
  {
    FieldStrays(FieldTerms(expr, i), SPECS[i], v)
  }

  ghost predicate FieldHolds(expr: string, i: nat, v: int)
    requires i < 5
  {
    FieldMeans(expr, i, v) || StraysTo(expr, i, v)
  }

  lemma MaskHolds(field: string, spec: Spec, v: int)
    requires Small(spec) && FieldOf(field, spec).Some?
    ensures var terms := FieldOf(field, spec).value;
            Bit(FieldMask(field, spec), v) <==> InField(terms, spec, v) || FieldStrays(terms, spec, v)
  {
    hide Bit, InField, FieldStrays, TermsOf, MaskOf;
    TermsAreSound(Split(field, ','), spec);
    FieldMaskIs(FieldOf(field, spec).value, spec, v);
  }

  // The either-day rule over what holds of the two day fields.
  predicate DaysAgree(either: bool, day: bool, weekday: bool) {
    if either then day || weekday else day && weekday
  }

  predicate EitherDay(expr: string) {
    var fields := Fields(TrimSpace(expr));
    |fields| == 5 && fields[2] != "*" && fields[4] != "*"
  }

  lemma FieldsAreTerms(expr: string, i: nat)
    requires ParsedOf(expr).Compiled? && i < 5
    ensures var fields := Fields(TrimSpace(expr));
            |fields| == 5 && FieldOf(fields[i], SPECS[i]) == Some(FieldTerms(expr, i))
  {
    hide FieldOf, FieldMask, Fields, TrimSpace;
    GoodUpTo(Fields(TrimSpace(expr)), 0, i);
  }

  // What an accepted expression matches, and what it means, in the same terms.
  lemma MatchesIs(expr: string, m: Moment)
    requires ParsedOf(expr).Compiled?
    ensures Matches(ParsedOf(expr).schedule, m) <==>
            FieldHolds(expr, 0, m.minute) && FieldHolds(expr, 1, m.hour) && FieldHolds(expr, 3, m.month) &&
            DaysAgree(EitherDay(expr), FieldHolds(expr, 2, m.day), FieldHolds(expr, 4, m.weekday))
    ensures Means(expr, m) <==>
            FieldMeans(expr, 0, m.minute) && FieldMeans(expr, 1, m.hour) && FieldMeans(expr, 3, m.month) &&
            DaysAgree(EitherDay(expr), FieldMeans(expr, 2, m.day), FieldMeans(expr, 4, m.weekday))
  {
    hide Bit, InField, FieldOf, FieldMask, Fields, TrimSpace, FieldTerms, FieldStrays;
    var fields := Fields(TrimSpace(expr));
    FieldsAreTerms(expr, 0);
    FieldsAreTerms(expr, 1);
    FieldsAreTerms(expr, 2);
    FieldsAreTerms(expr, 3);
    FieldsAreTerms(expr, 4);
    MaskHolds(fields[0], MINUTE, m.minute);
    MaskHolds(fields[1], HOUR, m.hour);
    MaskHolds(fields[2], DAY, m.day);
    MaskHolds(fields[3], MONTH, m.month);
    MaskHolds(fields[4], WEEKDAY, m.weekday);
  }

  // The values that the calendar gives to a field, in which Sunday is 0, and its moments.
  predicate InCalendar(i: nat, v: int)
    requires i < 5
  {
    SPECS[i].min <= v <= if SPECS[i].week then 6 else SPECS[i].max
  }

  predicate OfCalendar(m: Moment) {
    InCalendar(0, m.minute) && InCalendar(1, m.hour) && InCalendar(2, m.day) && InCalendar(3, m.month) && InCalendar(4, m.weekday)
  }

  // A field means whatever of the calendar it strays to.
  ghost predicate Fits(expr: string, i: nat)
    requires i < 5
  {
    forall v :: InCalendar(i, v) && StraysTo(expr, i, v) ==> FieldMeans(expr, i, v)
  }

  ghost predicate MeansAll(expr: string, i: nat)
    requires i < 5
  {
    forall v :: InCalendar(i, v) ==> FieldMeans(expr, i, v)
  }

  ghost predicate DaysFit(expr: string) {
    (Fits(expr, 2) && Fits(expr, 4)) || (EitherDay(expr) && (MeansAll(expr, 2) || MeansAll(expr, 4)))
  }

  ghost predicate AllFit(expr: string) {
    Fits(expr, 0) && Fits(expr, 1) && Fits(expr, 3) && DaysFit(expr)
  }

  ghost predicate Exact(expr: string)
    requires ParsedOf(expr).Compiled?
  {
    forall m :: OfCalendar(m) ==> (Matches(ParsedOf(expr).schedule, m) <==> Means(expr, m))
  }

  lemma SomeTerms(field: string, spec: Spec)
    requires FieldOf(field, spec).Some?
    ensures FieldOf(field, spec).value != [] && AllSound(FieldOf(field, spec).value, spec)
  {
    TermsAreSound(Split(field, ','), spec);
    hide TermOf, AllSound;
    assert Split(field, ',') != [];
  }

  lemma FirstMeant(t: Term, i: nat) returns (v: int)
    requires i < 5 && Sound(t, SPECS[i])
    ensures InCalendar(i, v) && InTerm(t, SPECS[i], v)
  {
    v := Fold(t.lo, SPECS[i]);
    ProgressionStep(t.lo, t.hi, t.step, t.lo);
    hide InProgression;
  }

  // Some value of the calendar is meant by each field of an accepted expression.
  lemma SomeMeant(expr: string, i: nat) returns (v: int)
    requires ParsedOf(expr).Compiled? && i < 5
    ensures InCalendar(i, v) && FieldMeans(expr, i, v)
  {
    hide ParsedOf, FieldTerms, FieldOf, Fields, TrimSpace, InTerm, Sound, InCalendar;
    FieldsAreTerms(expr, i);
    SomeTerms(Fields(TrimSpace(expr))[i], SPECS[i]);
    v := FirstMeant(FieldTerms(expr, i)[0], i);
  }

  // A moment of the calendar that is matched although it is not meant.
  lemma Misfit(expr: string) returns (m: Moment)
    requires ParsedOf(expr).Compiled? && !AllFit(expr)
    ensures OfCalendar(m) && Matches(ParsedOf(expr).schedule, m) && !Means(expr, m)
  {
    hide ParsedOf, Matches, Means, FieldMeans, StraysTo, EitherDay, InCalendar;
    var minute := SomeMeant(expr, 0);
    var hour := SomeMeant(expr, 1);
    var day := SomeMeant(expr, 2);
    var month := SomeMeant(expr, 3);
    var weekday := SomeMeant(expr, 4);
    if !Fits(expr, 0) {
      minute :| InCalendar(0, minute) && StraysTo(expr, 0, minute) && !FieldMeans(expr, 0, minute);
    } else if !Fits(expr, 1) {
      hour :| InCalendar(1, hour) && StraysTo(expr, 1, hour) && !FieldMeans(expr, 1, hour);
    } else if !Fits(expr, 3) {
      month :| InCalendar(3, month) && StraysTo(expr, 3, month) && !FieldMeans(expr, 3, month);
    } else {
      if EitherDay(expr) {
        day :| InCalendar(2, day) && !FieldMeans(expr, 2, day);
        weekday :| InCalendar(4, weekday) && !FieldMeans(expr, 4, weekday);
      }
      if !Fits(expr, 2) {
        day :| InCalendar(2, day) && StraysTo(expr, 2, day) && !FieldMeans(expr, 2, day);
      } else {
        weekday :| InCalendar(4, weekday) && StraysTo(expr, 4, weekday) && !FieldMeans(expr, 4, weekday);
      }
    }
    m := Moment(minute, hour, day, month, weekday);
    MatchesIs(expr, m);
  }

  // Compilation keeps the meaning: an accepted expression matches exactly the moments of the calendar
  // that it means, exactly when each of its fields means whatever it strays to; and of two day fields of
  // which either is enough, when one means every day.
  lemma CompilationKeepsMeaning(expr: string)
    requires ParsedOf(expr).Compiled?
    ensures Exact(expr) <==> AllFit(expr)
  {
    hide ParsedOf, Matches, Means, FieldMeans, StraysTo, EitherDay, InCalendar;
    if AllFit(expr) {
      forall m | OfCalendar(m)
        ensures Matches(ParsedOf(expr).schedule, m) <==> Means(expr, m)
      {
            MatchesIs(expr, m);
      }
    } else {
      var m := Misfit(expr);
    }
  }

  // Without a step that wraps around nothing strays, and all moments are matched that are meant.
  predicate Tame(expr: string) {
    ParsedOf(expr).Compiled? && forall i :: 0 <= i < 5 ==> Unwrapped(FieldTerms(expr, i))
  }

  lemma TameMeans(expr: string, m: Moment)
    requires Tame(expr)
    ensures Matches(ParsedOf(expr).schedule, m) <==> Means(expr, m)
  {
    hide Unwrapped, FieldTerms, FieldMeans, EitherDay, ParsedOf, Matches, Means;
    MatchesIs(expr, m);
    forall i: nat, v | i < 5
      ensures FieldHolds(expr, i, v) <==> FieldMeans(expr, i, v)
    {
      FieldsAreTerms(expr, i);
      TermsAreSound(Split(Fields(TrimSpace(expr))[i], ','), SPECS[i]);
      UnwrappedStays(FieldTerms(expr, i), SPECS[i], v);
    }
  }

  // ---- What is written down -------------------------------------------------

  // The grammar of one term: a star, a number or a range, with or without a step.
  datatype Part = Star | One(n: nat) | Span(from: nat, to: nat)

  function ShowPart(p: Part): string {
    match p
    case Star => "*"
    case One(n) => FormatInt(n)
    case Span(a, b) => FormatInt(a) + "-" + FormatInt(b)
  }

  function ShowTerm(p: Part, step: Option<nat>): string {
    if step.None? then ShowPart(p) else ShowPart(p) + "/" + FormatInt(step.value)
  }

  function Written(p: Part, step: Option<nat>, spec: Spec): Term {
    var k := if step.None? then 1 else step.value;
    match p
    case Star => Term(spec.min, spec.max, k)
    case One(n) => Term(n, n, k)
    case Span(a, b) => Term(a, b, k)
  }

  predicate Plain(s: string) {
    s != "" && forall i :: 0 <= i < |s| ==> IsDigit(s[i])
  }

  lemma NumbersArePlain(n: nat)
    ensures Plain(FormatInt(n)) && ParseInt64(FormatInt(n)) == if n < INT64_LIMIT then Some(n) else None
  {
    ParseFormat(n);
  }

  lemma IndexIs(s: string, c: char, i: nat)
    requires i < |s| && s[i] == c && forall j :: 0 <= j < i ==> s[j] != c
    ensures Index(s, c) == i
  {
    hide Index;
  }

  lemma IndexNone(s: string, c: char)
    requires forall j :: 0 <= j < |s| ==> s[j] != c
    ensures Index(s, c) == -1
  {
    hide Index;
  }

  lemma PartParses(p: Part, spec: Spec)
    requires Small(spec)
    ensures var part := ShowPart(p);
            part != "" && (forall j :: 0 <= j < |part| ==> part[j] != '/') &&
            var t := Written(p, None, spec);
            RangeOf(part, spec) == if t.lo < INT64_LIMIT && t.hi < INT64_LIMIT then Some((t.lo, t.hi)) else None
  {
    hide FormatInt, ParseInt64, Index;
    var part := ShowPart(p);
    match p {
      case Star =>
      case One(n) =>
        NumbersArePlain(n);
        assert IsDigit(part[0]);
        IndexNone(part, '-');
      case Span(a, b) =>
        NumbersArePlain(a);
        NumbersArePlain(b);
        assert part[|FormatInt(a)|] == '-' && IsDigit(part[0]);
        IndexIs(part, '-', |FormatInt(a)|);
        assert part[..|FormatInt(a)|] == FormatInt(a) && part[|FormatInt(a)| + 1..] == FormatInt(b);
    }
  }

  // A term of the grammar is read as what it writes down, and accepted exactly when that is an
  // ascending range inside the field with a positive step that fits.
  lemma TermIsWhatIsWritten(p: Part, step: Option<nat>, spec: Spec)
    requires Small(spec)
    ensures TermOf(ShowTerm(p, step), spec) == if Sound(Written(p, step, spec), spec) then Some(Written(p, step, spec)) else None
  {
    hide FormatInt, ParseInt64, Index, RangeOf, ShowPart, TermFrom, Sound;
    PartParses(p, spec);
    var part, text := ShowPart(p), ShowTerm(p, step);
    if step.Some? {
      NumbersArePlain(step.value);
      assert text[|part|] == '/';
      IndexIs(text, '/', |part|);
      assert text[..|part|] == part && text[|part| + 1..] == FormatInt(step.value);
    } else {
      IndexNone(text, '/');
    }
    ReadsAs(p, step, spec);
  }

  lemma ReadsAs(p: Part, step: Option<nat>, spec: Spec)
    requires Small(spec) && ShowPart(p) != ""
    requires var t := Written(p, None, spec);
             RangeOf(ShowPart(p), spec) == if t.lo < INT64_LIMIT && t.hi < INT64_LIMIT then Some((t.lo, t.hi)) else None
    ensures var k := if step.None? then Some(1) else if step.value < INT64_LIMIT then Some(step.value) else None;
            TermFrom(ShowPart(p), k, spec) == if Sound(Written(p, step, spec), spec) then Some(Written(p, step, spec)) else None
  {
    hide RangeOf, ShowPart;
  }

  // ---- Whole expressions as written -----------------------------------------

  datatype Item = Item(part: Part, step: Option<nat>)

  const BARE_STAR := [Item(Star, None)]

  function ShowItem(item: Item): string {
    ShowTerm(item.part, item.step)
  }

  // A field: its items with commas between.
  function ShowField(items: seq<Item>): string
    requires items != []
  {
    if |items| == 1 then ShowItem(items[0]) else ShowItem(items[0]) + "," + ShowField(items[1..])
  }

  function WrittenTerms(items: seq<Item>, spec: Spec): seq<Term> {
    if items == [] then []
    else
      var last := items[|items| - 1];
      WrittenTerms(items[..|items| - 1], spec) + [Written(last.part, last.step, spec)]
  }

  function Texts(items: seq<Item>): seq<string> {
    if items == [] then [] else [ShowItem(items[0])] + Texts(items[1..])
  }

  predicate Word(s: string) {
    s != "" && forall i :: 0 <= i < |s| ==> !IsSpace(s[i])
  }

  predicate Blank(s: string) {
    forall i :: 0 <= i < |s| ==> IsSpace(s[i])
  }

  predicate NoComma(s: string) {
    forall i :: 0 <= i < |s| ==> s[i] != ','
  }

  lemma PartIsWord(p: Part)
    ensures Word(ShowPart(p)) && NoComma(ShowPart(p))
  {
    hide FormatInt, ParseInt64;
    match p {
      case Star =>
      case One(n) => NumbersArePlain(n);
      case Span(a, b) =>
        NumbersArePlain(a);
        NumbersArePlain(b);
    }
  }

  lemma ItemIsWord(item: Item)
    ensures Word(ShowItem(item)) && NoComma(ShowItem(item))
  {
    hide FormatInt, ParseInt64, ShowPart;
    PartIsWord(item.part);
    if item.step.Some? {
      NumbersArePlain(item.step.value);
    }
  }

  lemma WordsJoin(a: string, b: string)
    requires Word(a) && Word(b)
    ensures Word(a + "," + b)
  {
  }

  lemma {:induction false} FieldIsWord(items: seq<Item>)
    requires items != []
    ensures Word(ShowField(items))
  {
    hide ShowItem, Word, NoComma;
    ItemIsWord(items[0]);
    if |items| > 1 {
      FieldIsWord(items[1..]);
      WordsJoin(ShowItem(items[0]), ShowField(items[1..]));
    }
  }

  lemma {:induction false} SplitAt(a: string, rest: string)
    requires NoComma(a)
    ensures Split(a, ',') == [a]
    ensures Split(a + "," + rest, ',') == [a] + Split(rest, ',')
  {
    if a == "" {
      assert ("" + "," + rest)[1..] == rest;
    } else {
      SplitAt(a[1..], rest);
      assert (a + "," + rest)[1..] == a[1..] + "," + rest;
      assert [a[0]] + a[1..] == a;
    }
  }

  lemma {:induction false} SplitOfShow(items: seq<Item>)
    requires items != []
    ensures Split(ShowField(items), ',') == Texts(items)
  {
    hide ShowItem, Split, NoComma, Word;
    ItemIsWord(items[0]);
    if |items| == 1 {
      SplitAt(ShowItem(items[0]), "");
      assert Texts(items[1..]) == [];
    } else {
      SplitAt(ShowItem(items[0]), ShowField(items[1..]));
      SplitOfShow(items[1..]);
    }
  }

  lemma {:induction false} TextsSnoc(items: seq<Item>, item: Item)
    ensures Texts(items + [item]) == Texts(items) + [ShowItem(item)]
  {
    hide ShowItem;
    if items == [] {
      assert [item][1..] == [];
    } else {
      TextsSnoc(items[1..], item);
      assert (items + [item])[1..] == items[1..] + [item];
    }
  }

  lemma {:induction false} TermsOfTexts(items: seq<Item>, spec: Spec)
    requires Small(spec)
    ensures TermsOf(Texts(items), spec) == if AllSound(WrittenTerms(items, spec), spec) then Some(WrittenTerms(items, spec)) else None
  {
    hide TermOf, Written, Texts, Sound, ShowTerm, Small, AllSound;
    if items == [] {
      NothingWritten(spec);
    } else {
      var front, last := items[..|items| - 1], items[|items| - 1];
      TermsOfTexts(front, spec);
      TextsSnoc(front, last);
      assert items == front + [last];
      assert Texts(items)[..|Texts(items)| - 1] == Texts(front);
      ItemIsWord(last);
      TermIsWhatIsWritten(last.part, last.step, spec);
      AllSoundSnoc(WrittenTerms(front, spec), Written(last.part, last.step, spec), spec);
    }
  }

  lemma NothingWritten(spec: Spec)
    ensures TermsOf(Texts([]), spec) == Some([]) && AllSound([], spec)
  {
  }

  lemma AllSoundSnoc(terms: seq<Term>, t: Term, spec: Spec)
    ensures AllSound(terms + [t], spec) <==> AllSound(terms, spec) && Sound(t, spec)
  {
    hide Sound;
    assert forall x :: x in terms + [t] <==> x in terms || x == t;
  }

  // A field of the grammar is read as what it writes down, and accepted exactly when each of its terms is.
  lemma FieldIsWhatIsWritten(items: seq<Item>, spec: Spec)
    requires items != [] && Small(spec)
    ensures FieldOf(ShowField(items), spec) == if AllSound(WrittenTerms(items, spec), spec) then Some(WrittenTerms(items, spec)) else None
  {
    hide TermsOf, Split, ShowField, AllSound, WrittenTerms, Small;
    FieldIsWord(items);
    SplitOfShow(items);
    TermsOfTexts(items, spec);
  }

  // Words, each with the white space behind it.
  function Spaced(words: seq<string>, gaps: seq<string>): string
    requires |words| == |gaps|
  {
    if words == [] then "" else words[0] + (gaps[0] + Spaced(words[1..], gaps[1..]))
  }

  predicate Separate(gaps: seq<string>) {
    forall i :: 0 <= i < |gaps| ==> Blank(gaps[i]) && (i < |gaps| - 1 ==> gaps[i] != "")
  }

  lemma {:induction false} BlankThen(gap: string, rest: string)
    requires Blank(gap)
    ensures Fields(gap + rest) == Fields(rest)
  {
    hide IsSpace;
    if gap == "" {
      assert gap + rest == rest;
    } else {
      BlankThen(gap[1..], rest);
      assert (gap + rest)[1..] == gap[1..] + rest;
    }
  }

  lemma {:induction false} WordThen(word: string, rest: string)
    requires Word(word) && (rest == "" || IsSpace(rest[0]))
    ensures Fields(word + rest) == [word] + Fields(rest)
  {
    hide IsSpace;
    assert (word + rest)[1..] == word[1..] + rest;
    if |word| == 1 {
      assert word[1..] + rest == rest && word == [word[0]];
    } else {
      WordThen(word[1..], rest);
      assert [word[0]] + word[1..] == word;
    }
  }

  lemma {:induction false} FieldsOfSpaced(words: seq<string>, gaps: seq<string>)
    requires |words| == |gaps| && Separate(gaps) && forall i :: 0 <= i < |words| ==> Word(words[i])
    ensures Fields(Spaced(words, gaps)) == words
  {
    hide IsSpace, Word, Fields;
    if words == [] {
      NoFields();
    } else {
      var rest := Spaced(words[1..], gaps[1..]);
      FieldsOfSpaced(words[1..], gaps[1..]);
      BlankThen(gaps[0], rest);
      assert |words| > 1 ==> IsSpace(gaps[0][0]);
      assert |words| == 1 ==> gaps[0] + rest == gaps[0];
      WordThen(words[0], gaps[0] + rest);
    }
  }

  lemma NoFields()
    ensures Fields("") == []
  {
  }

  lemma {:induction false} TrimLeftKeeps(s: string)
    ensures Fields(TrimLeft(s)) == Fields(s)
  {
    hide IsSpace;
    if s != "" && IsSpace(s[0]) {
      TrimLeftKeeps(s[1..]);
    }
  }

  lemma {:induction false} LastBlank(s: string)
    requires s != "" && IsSpace(s[|s| - 1])
    ensures Fields(s[..|s| - 1]) == Fields(s)
  {
    hide IsSpace;
    if |s| > 1 {
      var t := s[..|s| - 1];
      LastBlank(s[1..]);
      assert t[1..] == s[1..][..|s| - 2];
    } else {
      assert Fields(s[1..]) == [];
    }
  }

  lemma {:induction false} TrimRightKeeps(s: string)
    ensures Fields(TrimRight(s)) == Fields(s)
  {
    hide IsSpace, Fields;
    if s != "" && IsSpace(s[|s| - 1]) {
      LastBlank(s);
      TrimRightKeeps(s[..|s| - 1]);
    }
  }

  function ShowFields(fields: seq<seq<Item>>): seq<string>
    requires forall i :: 0 <= i < |fields| ==> fields[i] != []
  {
    seq(|fields|, i requires 0 <= i < |fields| => ShowField(fields[i]))
  }

  // An expression: five fields, with any white space in front, between and behind.
  ghost predicate Writes(expr: string, fields: seq<seq<Item>>) {
    |fields| == 5 && (forall i :: 0 <= i < 5 ==> fields[i] != []) &&
    exists lead, gaps :: |gaps| == 5 && Blank(lead) && Separate(gaps) && expr == lead + Spaced(ShowFields(fields), gaps)
  }

  lemma FieldsOfExpression(expr: string, fields: seq<seq<Item>>)
    requires Writes(expr, fields)
    ensures Fields(TrimSpace(expr)) == ShowFields(fields)
  {
    hide Fields, ShowField, Spaced, Word, Blank, Separate;
    var lead, gaps :| |gaps| == 5 && Blank(lead) && Separate(gaps) && expr == lead + Spaced(ShowFields(fields), gaps);
    TrimLeftKeeps(expr);
    TrimRightKeeps(TrimLeft(expr));
    forall i | 0 <= i < 5
      ensures Word(ShowFields(fields)[i])
    {
      FieldIsWord(fields[i]);
    }
    BlankThen(lead, Spaced(ShowFields(fields), gaps));
    FieldsOfSpaced(ShowFields(fields), gaps);
  }

  lemma {:induction false} FirstBadFails(fields: seq<string>, i: nat)
    requires |fields| == 5 && i <= 5
    ensures FirstBad(fields, i) < 5 ==> FieldOf(fields[FirstBad(fields, i)], SPECS[FirstBad(fields, i)]).None?
    decreases 5 - i
  {
    hide FieldOf;
    if i < 5 && FieldOf(fields[i], SPECS[i]).Some? {
      FirstBadFails(fields, i + 1);
    }
  }

  // Each term is an ascending range inside its field, and no step wraps around.
  predicate WellWritten(fields: seq<seq<Item>>)
    requires |fields| == 5
  {
    forall i :: 0 <= i < 5 ==> AllSound(WrittenTerms(fields[i], SPECS[i]), SPECS[i])
  }

  predicate Gentle(fields: seq<seq<Item>>)
    requires |fields| == 5
  {
    forall i :: 0 <= i < 5 ==> Unwrapped(WrittenTerms(fields[i], SPECS[i]))
  }

  ghost predicate FieldSays(fields: seq<seq<Item>>, i: nat, v: int)
    requires i < 5 == |fields|
  {
    InField(WrittenTerms(fields[i], SPECS[i]), SPECS[i], v)
  }

  // The moments that an expression of the grammar writes down.
  ghost predicate Says(fields: seq<seq<Item>>, m: Moment)
    requires |fields| == 5
  {
    FieldSays(fields, 0, m.minute) && FieldSays(fields, 1, m.hour) && FieldSays(fields, 3, m.month) &&
    if fields[2] != BARE_STAR && fields[4] != BARE_STAR then FieldSays(fields, 2, m.day) || FieldSays(fields, 4, m.weekday)
    else FieldSays(fields, 2, m.day) && FieldSays(fields, 4, m.weekday)
  }

  lemma StarIsBare(items: seq<Item>)
    requires items != []
    ensures ShowField(items) == "*" <==> items == BARE_STAR
  {
    hide FormatInt, ParseInt64, ShowPart;
    PartIsWord(items[0].part);
    if |items| > 1 {
      FieldIsWord(items[1..]);
      assert |ShowItem(items[0])| >= 1;
    } else if items[0].step.None? {
      OnlyStarIsStar(items[0].part);
      assert items == [items[0]];
    }
  }

  lemma OnlyStarIsStar(p: Part)
    ensures ShowPart(p) == "*" <==> p == Star
  {
    hide FormatInt, ParseInt64;
    match p {
      case Star =>
      case One(n) =>
        NumbersArePlain(n);
        assert IsDigit(ShowPart(p)[0]);
      case Span(a, b) =>
        NumbersArePlain(a);
        assert IsDigit(ShowPart(p)[0]);
    }
  }

  // An expression of the grammar, however it is spaced, is accepted exactly when each of its terms is
  // well-ranged. It then means what is written down, and if no step wraps it matches exactly that.
  lemma ExpressionIsWhatIsWritten(expr: string, fields: seq<seq<Item>>, m: Moment)
    requires Writes(expr, fields)
    ensures ParsedOf(expr).Compiled? <==> WellWritten(fields)
    ensures WellWritten(fields) ==> (Means(expr, m) <==> Says(fields, m))
    ensures WellWritten(fields) && Gentle(fields) ==> (Matches(ParsedOf(expr).schedule, m) <==> Says(fields, m))
  {
    hide Fields, TrimSpace, ShowField, WrittenTerms, AllSound, Unwrapped, FieldOf, FieldMask, Matches, InField;
    FieldsOfExpression(expr, fields);
    var texts := ShowFields(fields);
    forall i | 0 <= i < 5
      ensures FieldOf(texts[i], SPECS[i]) == if AllSound(WrittenTerms(fields[i], SPECS[i]), SPECS[i]) then Some(WrittenTerms(fields[i], SPECS[i])) else None
    {
      FieldIsWhatIsWritten(fields[i], SPECS[i]);
    }
    FirstBadFails(texts, 0);
    if FirstBad(texts, 0) == 5 {
      forall i | 0 <= i < 5
        ensures FieldOf(texts[i], SPECS[i]).Some?
      {
        GoodUpTo(texts, 0, i);
      }
      StarIsBare(fields[2]);
      StarIsBare(fields[4]);
      if Gentle(fields) {
        TameMeans(expr, m);
      }
    }
  }

  // A step near the end of the integers: the term 10/9223372036854775807 of the minute field also
  // sets minute 8.
  lemma HugeStepSetsAnotherMinute()
    ensures TermOf("10/" + FormatInt(INT64_LIMIT - 1), MINUTE) == Some(Term(10, 10, INT64_LIMIT - 1))
    ensures Bit(TermMask(Term(10, 10, INT64_LIMIT - 1), MINUTE), 8) && !InTerm(Term(10, 10, INT64_LIMIT - 1), MINUTE, 8)
  {
    hide TermOf, InProgression, Bit;
    assert FormatInt(10) == "10" by {
      assert Digits(1) == "1" && Digits(10) == Digits(1) + "0";
    }
    TermIsWhatIsWritten(One(10), Some(INT64_LIMIT - 1), MINUTE);
    assert ShowTerm(One(10), Some(INT64_LIMIT - 1)) == "10/" + FormatInt(INT64_LIMIT - 1);
    WrapsInto(10, 10, INT64_LIMIT - 1, MINUTE);
  }

  // A bare star means every value of its field.
  lemma StarMeansAll(spec: Spec, v: int)
    requires Small(spec) && spec.min <= v <= spec.max
    ensures TermOf("*", spec) == Some(Term(spec.min, spec.max, 1)) && InTerm(Term(spec.min, spec.max, 1), spec, Fold(v, spec))
  {
    TermIsWhatIsWritten(Star, None, spec);
    assert ShowTerm(Star, None) == "*";
    assert v == Nth(spec.min, 1, v - spec.min);
    assert InProgression(spec.min, spec.max, 1, v);
  }
}
