/**
 * The CodeBlock component: a highlighted, optionally numbered rendering of a code
 * sample under an optional filename header, and a copy button whose `copied`
 * indicator is set by a successful clipboard write and cleared by a timer.
 *
 * The copy state is given as a value (`CopyState`) with its transitions as
 * functions, and `CodeBlockComponent` is the stateful instance whose methods
 * follow those functions. The clipboard outcome and the clock are inputs.
 */
module CodeBlock {
  import opened Wrappers
  import opened JsBuiltins

  /** Milliseconds between a successful copy and its revert. */
  const RevertDelay: int := 2000

  /** The language passed to the highlighter when the caller gives none. */
  const DefaultLanguage: string := "rust"

  // ---------------------------------------------------------------------------
  // Copy state

  /** What the copy handler does, in order: host effects and state updates. */
  datatype Effect =
    | WriteClipboard(text: string)   // navigator.clipboard.writeText(text)
    | SetCopied(value: bool)         // setCopied(value)
    | ScheduleRevert(deadline: int)  // setTimeout(() => setCopied(false), ...) due at deadline

  /** `copied`, the current time in ms, and the deadlines of the revert timers
      that have been scheduled and have not fired, in scheduling order. */
  datatype CopyState = CopyState(copied: bool, now: int, pending: seq<int>)

  /** A freshly mounted component: not copied, no timer pending. */
  function Initial(now: int): (s: CopyState)
    ensures !s.copied && s.pending == [] && s.now == now
  {
    CopyState(false, now, [])
  }

  /** The effects of one click on the copy button at time `now`, given whether the
      clipboard write resolves. The write comes first and always carries `code`
      itself; when the write rejects, the `await` throws and nothing follows it. */
  function CopyEffects(code: string, now: int, writeOk: bool): (es: seq<Effect>)
    ensures |es| > 0 && es[0] == WriteClipboard(code)
    ensures forall k | 0 < k < |es| :: !es[k].WriteClipboard?
    ensures SetCopied(true) in es <==> writeOk
    ensures writeOk ==> es[|es| - 1] == ScheduleRevert(now + RevertDelay)
    ensures !writeOk ==> |es| == 1
    ensures forall k | 0 <= k < |es| - 1 :: !es[k].ScheduleRevert? && es[k] != SetCopied(false)
    ensures SetCopied(false) !in es
  {
    [WriteClipboard(code)] +
    (if writeOk then [SetCopied(true), ScheduleRevert(now + RevertDelay)] else [])
  }

  function ApplyEffect(s: CopyState, e: Effect): CopyState {
    match e
    case WriteClipboard(_) => s
    case SetCopied(b) => s.(copied := b)
    case ScheduleRevert(d) => s.(pending := s.pending + [d])
  }

  function ApplyEffects(s: CopyState, es: seq<Effect>): CopyState
    decreases |es|
  {
    if es == [] then s else ApplyEffects(ApplyEffect(s, es[0]), es[1..])
  }

  /** `handleCopy` at the current time: the state after carrying out its effects.
      A successful copy sets `copied` and adds exactly one revert, due
      `RevertDelay` ms from now, without cancelling earlier ones; a failed copy
      changes nothing. */
  function Copy(s: CopyState, code: string, writeOk: bool): (r: CopyState)
    ensures writeOk ==> r.copied && r.now == s.now && r.pending == s.pending + [s.now + RevertDelay]
    ensures !writeOk ==> r == s
  {
    var es := CopyEffects(code, s.now, writeOk);
    ApplyEffectsCons(s, WriteClipboard(code), es[1..]);
    if writeOk then
      var d := s.now + RevertDelay;
      ApplyEffectsCons(s, SetCopied(true), [ScheduleRevert(d)]);
      ApplyEffectsCons(s.(copied := true), ScheduleRevert(d), []);
      ApplyEffects(s, es)
    else
      ApplyEffects(s, es)
  }

  lemma ApplyEffectsCons(s: CopyState, e: Effect, es: seq<Effect>)
    ensures ApplyEffects(s, [e] + es) == ApplyEffects(ApplyEffect(s, e), es)
  {
  }

  /** Some deadline in `pending` is at or before `t`. */
  function AnyDue(pending: seq<int>, t: int): (r: bool)
    ensures r <==> exists d :: d in pending && d <= t
  {
    if pending == [] then false
    else if pending[0] <= t then assert pending[0] in pending; true
    else
      assert forall d :: d in pending <==> d == pending[0] || d in pending[1..];
      AnyDue(pending[1..], t)
  }

  /** The deadlines in `pending` that are still in the future at `t`, in order:
      each later deadline is kept as often as it occurs, each due one is dropped,
      and concatenations are filtered part by part (`RemainingOfConcat`). */
  function Remaining(pending: seq<int>, t: int): (r: seq<int>)
    ensures |r| <= |pending|
    ensures forall d :: d in r <==> d in pending && d > t
    ensures forall d :: multiset(r)[d] == if d > t then multiset(pending)[d] else 0
  {
    if pending == [] then []
    else
      assert pending == [pending[0]] + pending[1..];
      if pending[0] <= t then Remaining(pending[1..], t)
      else [pending[0]] + Remaining(pending[1..], t)
  }

  /** Filtering keeps order: the kept deadlines of `a + b` are those of `a`
      followed by those of `b`. */
  lemma {:induction false} RemainingOfConcat(a: seq<int>, b: seq<int>, t: int)
    ensures Remaining(a + b, t) == Remaining(a, t) + Remaining(b, t)
    decreases |a|
  {
    if a == [] {
      assert a + b == b;
    } else {
      assert (a + b)[0] == a[0] && (a + b)[1..] == a[1..] + b;
      RemainingOfConcat(a[1..], b, t);
    }
  }

  /** Time passes to `t`: every revert due by then has fired (each sets `copied` to
      false) and is gone from the pending set. */
  function Advance(s: CopyState, t: int): (r: CopyState)
    requires s.now <= t
    ensures r.now == t
    ensures r.copied <==> s.copied && forall d :: d in s.pending ==> d > t
    ensures forall d :: d in r.pending <==> d in s.pending && d > t
    ensures forall d :: multiset(r.pending)[d] == if d > t then multiset(s.pending)[d] else 0
  {
    CopyState(s.copied && !AnyDue(s.pending, t), t, Remaining(s.pending, t))
  }

  predicate Sorted(ds: seq<int>) {
    forall i, j | 0 <= i < j < |ds| :: ds[i] <= ds[j]
  }

  /** The states the component can reach: reverts are due in scheduling order,
      each within `RevertDelay` ms of now and strictly after it (a timer due at
      `t` fires before a click at `t`), and `copied` is only ever on while some
      revert is still pending. */
  ghost predicate Valid(s: CopyState) {
    Sorted(s.pending) &&
    (forall d :: d in s.pending ==> s.now < d <= s.now + RevertDelay) &&
    (s.copied ==> s.pending != [])
  }

  lemma InitialValid(now: int)
    ensures Valid(Initial(now))
  {
  }

  lemma CopyPreservesValid(s: CopyState, code: string, writeOk: bool)
    requires Valid(s)
    ensures Valid(Copy(s, code, writeOk))
  {
    var p := Copy(s, code, writeOk).pending;
    if writeOk {
      forall i, j | 0 <= i < j < |p| ensures p[i] <= p[j] {
        if j == |p| - 1 { assert p[i] in s.pending; }
      }
    }
  }

  lemma {:induction false} RemainingSorted(ds: seq<int>, t: int)
    requires Sorted(ds)
    ensures Sorted(Remaining(ds, t))
  {
    if ds != [] {
      assert Sorted(ds[1..]);
      RemainingSorted(ds[1..], t);
      var rest := Remaining(ds[1..], t);
      if ds[0] > t {
        forall j | 0 <= j < |rest| ensures ds[0] <= rest[j] {
          assert rest[j] in ds[1..];
        }
      }
    }
  }

  lemma {:induction false} RemainingOfNoneDue(ds: seq<int>, t: int)
    requires forall d :: d in ds ==> d > t
    ensures Remaining(ds, t) == ds
  {
    if ds != [] {
      assert forall d :: d in ds[1..] ==> d in ds;
      assert ds[0] in ds;
      RemainingOfNoneDue(ds[1..], t);
      assert ds == [ds[0]] + ds[1..];
    }
  }

  lemma AdvancePreservesValid(s: CopyState, t: int)
    requires Valid(s) && s.now <= t
    ensures Valid(Advance(s, t))
  {
    RemainingSorted(s.pending, t);
    if Advance(s, t).copied {
      RemainingOfNoneDue(s.pending, t);
    }
  }

  /** The indicator stays on exactly until the EARLIEST pending revert is due,
      which after repeated copies is 2000 ms after the first of them, not the last. */
  lemma CopiedUntilEarliestRevert(s: CopyState, t: int)
    requires Valid(s) && s.copied && s.now <= t
    ensures Advance(s, t).copied <==> t < s.pending[0]
  {
  }

  /** Without a copy, a cleared indicator stays cleared however long time runs. */
  lemma ClearedStaysCleared(s: CopyState, t: int)
    requires !s.copied && s.now <= t
    ensures !Advance(s, t).copied
  {
  }

  /** Letting time run to `t1` and then to `t2` is letting it run to `t2`. */
  lemma {:induction false} AdvanceTwice(s: CopyState, t1: int, t2: int)
    requires s.now <= t1 <= t2
    ensures Advance(Advance(s, t1), t2) == Advance(s, t2)
  {
    RemainingTwice(s.pending, t1, t2);
  }

  lemma {:induction false} RemainingTwice(ds: seq<int>, t1: int, t2: int)
    requires t1 <= t2
    ensures Remaining(Remaining(ds, t1), t2) == Remaining(ds, t2)
  {
    if ds != [] {
      RemainingTwice(ds[1..], t1, t2);
      if ds[0] > t1 {
        assert Remaining(ds, t1) == [ds[0]] + Remaining(ds[1..], t1);
        assert Remaining(ds, t1)[1..] == Remaining(ds[1..], t1);
      }
    }
  }

  /** Copies at t=0 and t=1000: the first copy's revert clears the indicator at
      t=2000, the second copy's revert is still pending then, and the indicator
      stays off from t=2000 onward. */
  lemma EarlyRevertAfterRepeatedCopy(code: string, t: int)
    requires 2000 <= t
    ensures var s := Copy(Advance(Copy(Initial(0), code, true), 1000), code, true);
      Advance(s, 1999).copied &&
      !Advance(s, 2000).copied && Advance(s, 2000).pending == [3000] &&
      !Advance(Advance(s, 2000), t).copied
  {
    var s := Copy(Advance(Copy(Initial(0), code, true), 1000), code, true);
    assert s.pending == [2000, 3000];
    assert Remaining(s.pending, 2000) == [3000];
  }

  // ---------------------------------------------------------------------------
  // Display

  /** One highlighter token: its style classes and its text. */
  datatype Token = Token(types: seq<string>, content: string)

  /** A rendered code line: its 1-based label when numbering is on, and its tokens. */
  datatype NumberedLine = NumberedLine(number: Option<nat>, tokens: seq<Token>)

  datatype Icon = CheckIcon | CopyIcon

  datatype HeaderRow = HeaderRow(filename: string, language: string)

  /** The props of `<CodeBlock>`; absent optional props are `None`. */
  datatype Props = Props(
    code: string,
    language: Option<string>,
    filename: Option<string>,
    showLineNumbers: Option<bool>)

  datatype View = View(header: Option<HeaderRow>, icon: Icon, lines: seq<NumberedLine>)

  /** The copy button shows the check mark while `copied` is on. */
  function ButtonIcon(copied: bool): (i: Icon)
    ensures i == CheckIcon <==> copied
    ensures i == CopyIcon <==> !copied
  {
    if copied then CheckIcon else CopyIcon
  }

  /** The header row, shown when `filename` is truthy (present and non-empty). */
  function FilenameHeader(filename: Option<string>, language: string): (h: Option<HeaderRow>)
    ensures h.Some? <==> filename.Some? && filename.value != ""
    ensures h.Some? ==> h.value == HeaderRow(filename.value, language)
  {
    match filename
    case Some(f) => if f != "" then Some(HeaderRow(f, language)) else None
    case None => None
  }

  /** `tokens.map((line, i) => ...)`: line `i` keeps its tokens and, when numbering
      is on, is labelled `i + 1`. */
  function NumberLines(lines: seq<seq<Token>>, showLineNumbers: bool): (r: seq<NumberedLine>)
    ensures |r| == |lines|
    ensures forall i | 0 <= i < |r| :: r[i].tokens == lines[i]
  {
    seq(|lines|, i requires 0 <= i < |lines| =>
      NumberedLine(if showLineNumbers then Some(i + 1) else None, lines[i]))
  }

  /** The labels of `lines`, in order, skipping the unlabelled ones. */
  function Labels(lines: seq<NumberedLine>): seq<nat>
    decreases |lines|
  {
    if lines == [] then []
    else (if lines[0].number.Some? then [lines[0].number.value] else []) + Labels(lines[1..])
  }

  /** The sequence 1, 2, ..., n. */
  function OneTo(n: nat): (r: seq<nat>)
    ensures |r| == n && forall k | 0 <= k < n :: r[k] == k + 1
  {
    seq(n, k requires 0 <= k < n => k + 1)
  }

  /** With numbering on the labels are exactly 1..n in order; with it off there are none. */
  lemma LabelsArePositional(lines: seq<seq<Token>>, showLineNumbers: bool)
    ensures Labels(NumberLines(lines, showLineNumbers)) ==
      if showLineNumbers then OneTo(|lines|) else []
  {
    LabelsFrom(NumberLines(lines, showLineNumbers), 0, showLineNumbers);
  }

  lemma {:induction false} LabelsFrom(r: seq<NumberedLine>, offset: nat, on: bool)
    requires forall i | 0 <= i < |r| :: r[i].number == if on then Some(offset + i + 1) else None
    ensures Labels(r) == if on then seq(|r|, k requires 0 <= k < |r| => offset + k + 1) else []
    decreases |r|
  {
    if r != [] {
      LabelsFrom(r[1..], offset + 1, on);
    }
  }

  /** What `<CodeBlock>` renders, for a highlighter `tokenize` that maps text and a
      language to token lines. The highlighter sees the trimmed code; the header
      and the highlighter see the language, `"rust"` when none is given; numbering
      is on unless `showLineNumbers` is given as false. */
  function Render(p: Props, copied: bool, tokenize: (string, string) -> seq<seq<Token>>): (v: View)
    ensures var language := if p.language.Some? then p.language.value else DefaultLanguage;
      var lines := tokenize(Trim(p.code), language);
      v.header == FilenameHeader(p.filename, language) &&
      |v.lines| == |lines| &&
      (forall i | 0 <= i < |lines| :: v.lines[i].tokens == lines[i]) &&
      Labels(v.lines) == (if p.showLineNumbers != Some(false) then OneTo(|lines|) else [])
    ensures v.icon == CheckIcon <==> copied
  {
    var language := p.language.GetOr(DefaultLanguage);
    var show := p.showLineNumbers.GetOr(true);
    var lines := tokenize(Trim(p.code), language);
    LabelsArePositional(lines, show);
    View(FilenameHeader(p.filename, language), ButtonIcon(copied), NumberLines(lines, show))
  }

  /** The copied text and the highlighted text differ: copying keeps the trailing
      newline of `"fn main() {}\n"`, highlighting drops it. */
  lemma CopiedTextIsUntrimmed()
    ensures CopyEffects("fn main() {}\n", 0, true)[0] == WriteClipboard("fn main() {}\n")
    ensures Trim("fn main() {}\n") == "fn main() {}"
  {
    TrimUnique([], "fn main() {}", "\n");
    assert [] + "fn main() {}" + "\n" == "fn main() {}\n";
  }

  // ---------------------------------------------------------------------------
  // The component instance

  /** One mounted `<CodeBlock>`: its immutable `code` and its copy state. */
  class CodeBlockComponent {
    const code: string
    var copied: bool
    var now: int
    var pending: seq<int>

    function State(): CopyState
      reads this
    {
      CopyState(copied, now, pending)
    }

    /** `useState(false)`: mounted at time `now` with the indicator off. */
    constructor (code: string, now: int)
      ensures this.code == code && State() == Initial(now)
    {
      this.code := code;
      this.copied := false;
      this.now := now;
      this.pending := [];
    }

    /** `handleCopy`: issues the clipboard write of `code` (returned as `written`)
        and, when the write resolves, turns the indicator on and schedules a revert. */
    method HandleCopy(writeOk: bool) returns (written: string)
      modifies this
      ensures written == code
      ensures State() == Copy(old(State()), code, writeOk)
      ensures writeOk ==> copied && pending == old(pending) + [now + RevertDelay]
      ensures !writeOk ==> unchanged(this)
    {
      written := code;
      if writeOk {
        copied := true;
        pending := pending + [now + RevertDelay];
      }
    }

    /** The clock reaches `t`: each revert due by then runs `setCopied(false)`. */
    method Tick(t: int)
      requires now <= t
      modifies this
      ensures State() == Advance(old(State()), t)
    {
      copied := copied && !AnyDue(pending, t);
      pending := Remaining(pending, t);
      now := t;
    }

    /** The icon on the copy button. */
    method Icon() returns (i: Icon)
      ensures i == CheckIcon <==> copied
    {
      i := ButtonIcon(copied);
    }
  }

  /** A client of the component: two copies one second apart leave it showing the
      copy icon again from t=2000, with the second revert still pending. */
  method RepeatedCopyScenario(code: string) returns (icon: Icon, pendingAfter: seq<int>)
    ensures icon == CopyIcon && pendingAfter == [3000]
  {
    var c := new CodeBlockComponent(code, 0);
    var w := c.HandleCopy(true);
    c.Tick(1000);
    w := c.HandleCopy(true);
    c.Tick(2000);
    assert Remaining([2000, 3000], 2000) == [3000];
    icon := c.Icon();
    pendingAfter := c.pending;
  }
}
