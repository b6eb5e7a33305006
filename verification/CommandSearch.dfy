/** The search for the end and the branches of a script block. */
module CommandSearch {
  import opened Common

  /** The name of a command prototype, if it has one. */
  type Line = Option<string>

  /** The names the search is given: of the block itself, and of other blocks it may meet. */
  datatype Defs = Defs(
    begin: seq<string>, middle: seq<string>, end: seq<string>,
    openers: seq<string>, closers: seq<string>)
  {
    /** Opens a block of the own kind; a name that is also listed as an opener is only counted. */
    predicate IsOwn(line: Line) { line.Some? && line.value in begin && line.value !in openers }

    predicate IsMiddle(line: Line) { line.Some? && line.value in middle }

    predicate IsEnd(line: Line) { line.Some? && line.value in end }

    predicate IsOpen(line: Line) { line.Some? && (line.value in begin || line.value in openers) }

    /** Opening, branch and end names are apart, and every kind of block is closed by the same names. */
    predicate WellNamed() {
      && ToSet(closers) == ToSet(end)
      && ToSet(openers) !! ToSet(middle) && ToSet(openers) !! ToSet(end)
      && ToSet(middle) !! ToSet(end) && ToSet(middle) !! ToSet(begin) && ToSet(end) !! ToSet(begin)
    }
  }

  datatype SearchError = EmptyBegin | EmptyEnd | NestedEndMissing | NestingRefused | EndMissing

  // ----- one counter over all openers -----

  /** The first end line at depth zero, from line `from` entered at `depth`. */
  function FirstEnd(d: Defs, cmds: seq<Line>, from: nat, depth: nat): Option<nat>
    decreases |cmds| - from
  {
    if from >= |cmds| then None
    else if d.IsOpen(cmds[from]) then FirstEnd(d, cmds, from + 1, depth + 1)
    else if d.IsEnd(cmds[from]) then
      if depth == 0 then Some(from) else FirstEnd(d, cmds, from + 1, depth - 1)
    else FirstEnd(d, cmds, from + 1, depth)
  }

  /** Counting down from a deeper level means finding the inner end first and going on after it. */
  lemma {:induction false} InnerEndFirst(d: Defs, cmds: seq<Line>, from: nat, inner: nat, outer: nat)
    ensures FirstEnd(d, cmds, from, inner + 1 + outer)
         == (match FirstEnd(d, cmds, from, inner)
             case None => None
             case Some(e) => FirstEnd(d, cmds, e + 1, outer))
    decreases |cmds| - from
  {
    if from < |cmds| {
      if d.IsOpen(cmds[from]) {
        InnerEndFirst(d, cmds, from + 1, inner + 1, outer);
      } else if d.IsEnd(cmds[from]) {
        if inner > 0 { InnerEndFirst(d, cmds, from + 1, inner - 1, outer); }
      } else {
        InnerEndFirst(d, cmds, from + 1, inner, outer);
      }
    }
  }

  lemma {:induction false} FirstEndIsEnd(d: Defs, cmds: seq<Line>, from: nat, depth: nat)
    requires FirstEnd(d, cmds, from, depth).Some?
    ensures var e := FirstEnd(d, cmds, from, depth).value;
            from <= e < |cmds| && d.IsEnd(cmds[e]) && !d.IsOpen(cmds[e])
    decreases |cmds| - from
  {
    if d.IsOpen(cmds[from]) {
      FirstEndIsEnd(d, cmds, from + 1, depth + 1);
    } else if d.IsEnd(cmds[from]) {
      if depth > 0 { FirstEndIsEnd(d, cmds, from + 1, depth - 1); }
    } else {
      FirstEndIsEnd(d, cmds, from + 1, depth);
    }
  }

  /** A block opened before the end that was found is closed before it. */
  lemma {:induction false} NestedClosed(d: Defs, cmds: seq<Line>, from: nat, depth: nat, o: nat)
    requires FirstEnd(d, cmds, from, depth).Some? && from <= o < FirstEnd(d, cmds, from, depth).value
    requires o < |cmds| && d.IsOpen(cmds[o])
    ensures FirstEnd(d, cmds, o + 1, 0).Some?
    ensures FirstEnd(d, cmds, o + 1, 0).value < FirstEnd(d, cmds, from, depth).value
    decreases |cmds| - from
  {
    if o == from {
      InnerEndFirst(d, cmds, from + 1, 0, depth);
      FirstEndIsEnd(d, cmds, FirstEnd(d, cmds, from + 1, 0).value + 1, depth);
    } else if d.IsOpen(cmds[from]) {
      NestedClosed(d, cmds, from + 1, depth + 1, o);
    } else if d.IsEnd(cmds[from]) {
      NestedClosed(d, cmds, from + 1, depth - 1, o);
    } else {
      NestedClosed(d, cmds, from + 1, depth, o);
    }
  }

  /** Every block of the own kind opened in [from, m) is closed before `m`. */
  ghost predicate Outside(d: Defs, cmds: seq<Line>, from: nat, m: nat)
    requires m <= |cmds|
  {
    forall o :: from <= o < m && d.IsOwn(cmds[o]) ==>
      var e := FirstEnd(d, cmds, o + 1, 0); e.Some? && e.value < m
  }

  /** A middle line that belongs to the block searched from `from`. */
  ghost predicate Listed(d: Defs, cmds: seq<Line>, from: nat, m: nat) {
    from <= m < |cmds| && d.IsMiddle(cmds[m]) && Outside(d, cmds, from, m)
  }

  ghost predicate Increasing(s: seq<nat>) {
    forall i, j :: 0 <= i < j < |s| ==> s[i] < s[j]
  }

  /** What the search owes its caller: the end of the block and its branches, in order. */
  ghost predicate Found(d: Defs, cmds: seq<Line>, start: nat, end: nat, middles: seq<nat>) {
    && FirstEnd(d, cmds, start, 0) == Some(end)
    && Increasing(middles)
    && forall m: nat :: m in middles <==> m < end && Listed(d, cmds, start, m)
  }

  ghost predicate NestsNothing(d: Defs, cmds: seq<Line>, start: nat, end: nat)
    requires end <= |cmds|
  {
    forall o :: start <= o < end ==> !d.IsOwn(cmds[o])
  }

  // ----- the search -----

  /** The state of the search in front of line `cur`. */
  ghost predicate Scanned(d: Defs, cmds: seq<Line>, start: nat, cur: nat, diff: nat, middles: seq<nat>, recurse: bool) {
    && start <= cur <= |cmds|
    && FirstEnd(d, cmds, start, 0) == FirstEnd(d, cmds, cur, diff)
    && Increasing(middles)
    && Outside(d, cmds, start, cur)
    && (forall m: nat :: m in middles <==> m < cur && Listed(d, cmds, start, m))
    && (!recurse ==> NestsNothing(d, cmds, start, cur))
  }

  /** A line that is not of the own kind moves the state on by one. */
  lemma ScanLine(d: Defs, cmds: seq<Line>, start: nat, cur: nat, diff: nat, middles: seq<nat>, recurse: bool, next: nat)
    requires d.WellNamed() && Scanned(d, cmds, start, cur, diff, middles, recurse)
    requires cur < |cmds| && !d.IsOwn(cmds[cur])
    requires FirstEnd(d, cmds, cur, diff) == FirstEnd(d, cmds, cur + 1, next)
    ensures Scanned(d, cmds, start, cur + 1, next,
                    if d.IsMiddle(cmds[cur]) then middles + [cur] else middles, recurse)
  {
    var more := if d.IsMiddle(cmds[cur]) then middles + [cur] else middles;
    forall m: nat
      ensures m in more <==> m < cur + 1 && Listed(d, cmds, start, m)
    {
    }
    forall i, j | 0 <= i < j < |more|
      ensures more[i] < more[j]
    {
      if j == |middles| { assert more[i] in middles; }
    }
  }

  /** A nested block of the own kind is passed as a whole. */
  lemma ScanBlock(d: Defs, cmds: seq<Line>, start: nat, cur: nat, diff: nat, middles: seq<nat>)
    requires d.WellNamed() && Scanned(d, cmds, start, cur, diff, middles, true)
    requires cur < |cmds| && d.IsOwn(cmds[cur]) && FirstEnd(d, cmds, cur + 1, 0).Some?
    ensures Scanned(d, cmds, start, FirstEnd(d, cmds, cur + 1, 0).value + 1, diff, middles, true)
  {
    var e := FirstEnd(d, cmds, cur + 1, 0).value;
    FirstEndIsEnd(d, cmds, cur + 1, 0);
    InnerEndFirst(d, cmds, cur + 1, 0, diff);
    assert cmds[e].value !in d.begin by { assert cmds[e].value in ToSet(d.end); }
    forall o | start <= o < e + 1 && d.IsOwn(cmds[o])
      ensures FirstEnd(d, cmds, o + 1, 0).Some? && FirstEnd(d, cmds, o + 1, 0).value < e + 1
    {
      if cur < o < e { NestedClosed(d, cmds, cur + 1, 0, o); }
    }
    forall m: nat
      ensures m in middles <==> m < e + 1 && Listed(d, cmds, start, m)
    {
      if cur == m < e + 1 {
        assert cmds[m].value in ToSet(d.begin);
      } else if cur < m < e + 1 {
        assert !Outside(d, cmds, start, m);
      }
    }
  }

  method Search(cmds: seq<Line>, start: nat, d: Defs, recurse: bool)
    returns (r: Result<Option<(nat, seq<nat>)>, SearchError>)
    ensures d.begin == [] ==> r == Failure(EmptyBegin)
    ensures d.begin != [] && d.end == [] ==> r == Failure(EmptyEnd)
    ensures r.Success? ==> r.value.Some?
    ensures d.WellNamed() && r.Success? ==> Found(d, cmds, start, r.value.value.0, r.value.value.1)
    ensures d.WellNamed() && d.begin != [] && d.end != [] ==>
              var e := FirstEnd(d, cmds, start, 0);
              (r.Success? <==> e.Some? && e.value < |cmds| && (recurse || NestsNothing(d, cmds, start, e.value)))
    decreases |cmds| - start
  {
    if d.begin == [] { return Failure(EmptyBegin); }
    if d.end == [] { return Failure(EmptyEnd); }
    var middles: seq<nat> := [];
    var skipTo := start;
    var blockDiff := 0;
    var line := start;
    while line < |cmds|
      invariant start <= line
      invariant d.WellNamed() && start <= |cmds| ==>
                  && line <= |cmds| && start <= skipTo
                  && Scanned(d, cmds, start, if line < skipTo then skipTo else line, blockDiff, middles, recurse)
      decreases |cmds| - line
    {
      ghost var before, diff := middles, blockDiff;
      if line >= skipTo && cmds[line].Some? {
        var name := cmds[line].value;
        RolesOf(d, name);
        if name in d.openers {
          blockDiff := blockDiff + 1;
        } else if name in d.middle {
          middles := middles + [line];
        } else if name in d.closers && blockDiff > 0 {
          blockDiff := blockDiff - 1;
        } else if name in d.end {
          return Success(Some((line, middles)));
        } else if name in d.begin {
          if recurse {
            var nested := Search(cmds, line + 1, d, recurse);
            if d.WellNamed() {
              InnerEndFirst(d, cmds, line + 1, 0, blockDiff);
              if nested.Success? {
                FirstEndIsEnd(d, cmds, line + 1, 0);
                ScanBlock(d, cmds, start, line, blockDiff, middles);
              }
            }
            match nested
            case Failure(e) => return Failure(e);
            case Success(None) => return Failure(NestedEndMissing);
            case Success(Some(pos)) => skipTo := pos.0 + 1;
          } else {
            if d.WellNamed() && FirstEnd(d, cmds, start, 0).Some? {
              FirstEndIsEnd(d, cmds, line, blockDiff);
            }
            return Failure(NestingRefused);
          }
        }
      }
      if d.WellNamed() && line >= skipTo {
        ScanLine(d, cmds, start, line, diff, before, recurse, blockDiff);
      }
      line := line + 1;
    }
    return Failure(EndMissing);
  }

  lemma RolesOf(d: Defs, name: string)
    ensures d.WellNamed() ==>
              && (name in d.closers <==> name in d.end)
              && (name in d.openers ==> name !in d.middle && name !in d.end)
              && (name in d.middle ==> name !in d.end && name !in d.begin)
              && (name in d.end ==> name !in d.begin)
  {
    if d.WellNamed() {
      assert name in d.closers <==> name in ToSet(d.closers);
      assert name in d.end <==> name in ToSet(d.end);
      assert name in d.openers <==> name in ToSet(d.openers);
      assert name in d.middle <==> name in ToSet(d.middle);
      assert name in d.begin <==> name in ToSet(d.begin);
    }
  }

  // ----- rendered scripts -----

  /** A script body: plain lines, branch marks such as `else`, and whole blocks. */
  datatype Script =
    | Stop
    | Plain(line: Line, rest: Script)
    | Mark(name: string, rest: Script)
    | Block(open: string, body: Script, close: string, rest: Script)

  function Render(s: Script): seq<Line> {
    match s
    case Stop => []
    case Plain(line, rest) => [line] + Render(rest)
    case Mark(name, rest) => [Some(name)] + Render(rest)
    case Block(open, body, close, rest) => [Some(open)] + Render(body) + [Some(close)] + Render(rest)
  }

  /** Plain lines have no role, marks are branch names or names mistaken for openers, and blocks are
      closed by an end name. A block may be of a kind that the search is not told about. */
  predicate Fits(d: Defs, s: Script) {
    match s
    case Stop => true
    case Plain(line, rest) => !d.IsOpen(line) && !d.IsMiddle(line) && !d.IsEnd(line) && Fits(d, rest)
    case Mark(name, rest) => (name in d.middle || name in d.openers) && Fits(d, rest)
    case Block(open, body, close, rest) =>
      open !in d.middle && open !in d.end && close in d.end && Fits(d, body) && Fits(d, rest)
  }

  predicate Known(d: Defs, open: string) {
    open in d.begin || open in d.openers
  }

  /** How many blocks, at any depth, are of a kind that the search is not told about. */
  function Strangers(d: Defs, s: Script): nat {
    match s
    case Stop => 0
    case Plain(_, rest) => Strangers(d, rest)
    case Mark(_, rest) => Strangers(d, rest)
    case Block(open, body, _, rest) => (if Known(d, open) then 0 else 1) + Strangers(d, body) + Strangers(d, rest)
  }

  /** How many marks the search mistakes for the start of another block. */
  function Mistaken(d: Defs, s: Script): nat {
    match s
    case Stop => 0
    case Plain(_, rest) => Mistaken(d, rest)
    case Mark(name, rest) => (if name in d.openers then 1 else 0) + Mistaken(d, rest)
    case Block(_, body, _, rest) => Mistaken(d, body) + Mistaken(d, rest)
  }

  ghost predicate At(cmds: seq<Line>, p: nat, part: seq<Line>) {
    p + |part| <= |cmds| && cmds[p..p + |part|] == part
  }

  lemma AtConcat(cmds: seq<Line>, p: nat, a: seq<Line>, b: seq<Line>)
    requires At(cmds, p, a + b)
    ensures At(cmds, p, a) && At(cmds, p + |a|, b)
  {
    var whole := cmds[p..p + |a| + |b|];
    assert whole[..|a|] == a && whole[|a|..] == b;
    assert cmds[p..p + |a|] == whole[..|a|];
    assert cmds[p + |a|..p + |a| + |b|] == whole[|a|..];
  }

  lemma AtFits(cmds: seq<Line>, p: nat, part: seq<Line>)
    requires At(cmds, p, part)
    ensures p + |part| <= |cmds|
  {
  }

  lemma AtHead(cmds: seq<Line>, p: nat, line: Line, b: seq<Line>)
    requires At(cmds, p, [line] + b)
    ensures p < |cmds| && cmds[p] == line && At(cmds, p + 1, b)
  {
    AtConcat(cmds, p, [line], b);
    assert cmds[p..p + 1][0] == line;
  }

  lemma RenderBlock(s: Script)
    requires s.Block?
    ensures Render(s) == [Some(s.open)] + (Render(s.body) + ([Some(s.close)] + Render(s.rest)))
  {
  }

  /** A block is laid out as opener, body, closer, rest. */
  lemma AtBlock(cmds: seq<Line>, p: nat, s: Script)
    requires s.Block? && At(cmds, p, Render(s))
    ensures var x := p + 1 + |Render(s.body)|;
            && x < |cmds| && cmds[p] == Some(s.open) && At(cmds, p + 1, Render(s.body))
            && cmds[x] == Some(s.close) && At(cmds, x + 1, Render(s.rest))
  {
    hide *;
    RenderBlock(s);
    AtBlockParts(cmds, p, Some(s.open), Render(s.body), Some(s.close), Render(s.rest));
  }

  lemma AtBlockParts(cmds: seq<Line>, p: nat, open: Line, body: seq<Line>, close: Line, rest: seq<Line>)
    requires At(cmds, p, [open] + (body + ([close] + rest)))
    ensures var x := p + 1 + |body|;
            && x < |cmds| && cmds[p] == open && At(cmds, p + 1, body) && cmds[x] == close && At(cmds, x + 1, rest)
  {
    hide At;
    var tail := [close] + rest;
    AtHead(cmds, p, open, body + tail);
    AtConcat(cmds, p + 1, body, tail);
    AtHead(cmds, p + 1 + |body|, close, rest);
  }

  /** One step of the counter. */
  lemma Count(d: Defs, cmds: seq<Line>, p: nat, depth: nat)
    requires p < |cmds|
    ensures d.IsOpen(cmds[p]) ==> FirstEnd(d, cmds, p, depth) == FirstEnd(d, cmds, p + 1, depth + 1)
    ensures !d.IsOpen(cmds[p]) && d.IsEnd(cmds[p]) && depth > 0 ==>
              FirstEnd(d, cmds, p, depth) == FirstEnd(d, cmds, p + 1, depth - 1)
    ensures !d.IsOpen(cmds[p]) && !d.IsEnd(cmds[p]) ==>
              FirstEnd(d, cmds, p, depth) == FirstEnd(d, cmds, p + 1, depth)
  {
  }

  // ----- where the counter stands -----

  function Weight(d: Defs, line: Line): int {
    if d.IsOpen(line) then 1 else if d.IsEnd(line) then -1 else 0
  }

  /** Openers minus ends. */
  function Balance(d: Defs, lines: seq<Line>): int
    decreases |lines|
  {
    if lines == [] then 0 else Weight(d, lines[0]) + Balance(d, lines[1..])
  }

  /** No prefix of the lines ends more blocks than it opens, `depth` of them being open before. */
  ghost predicate StaysOpen(d: Defs, lines: seq<Line>, depth: nat) {
    forall i :: 0 <= i <= |lines| ==> depth + Balance(d, lines[..i]) >= 0
  }

  lemma StaysOpenStep(d: Defs, lines: seq<Line>, depth: nat)
    requires lines != []
    ensures StaysOpen(d, lines, depth)
       <==> depth + Weight(d, lines[0]) >= 0 && StaysOpen(d, lines[1..], depth + Weight(d, lines[0]))
  {
    var tail, w := lines[1..], Weight(d, lines[0]);
    assert Balance(d, lines[..0]) == 0;
    forall i | 0 <= i <= |tail|
      ensures Balance(d, lines[..i + 1]) == w + Balance(d, tail[..i])
    {
      assert lines[..i + 1][1..] == tail[..i];
    }
    if StaysOpen(d, lines, depth) {
      forall i | 0 <= i <= |tail|
        ensures depth + w + Balance(d, tail[..i]) >= 0
      {
        assert depth + Balance(d, lines[..i + 1]) >= 0;
      }
      assert Balance(d, tail[..0]) == 0;
    }
    if depth + w >= 0 && StaysOpen(d, tail, depth + w) {
      forall i | 0 <= i <= |lines|
        ensures depth + Balance(d, lines[..i]) >= 0
      {
        if i > 0 { assert Balance(d, lines[..i]) == w + Balance(d, tail[..i - 1]); }
      }
    }
  }

  /** An end line is the first one at depth zero if and only if all before it is balanced and no
      prefix of that ends too much. */
  lemma {:induction false} FirstEndIff(d: Defs, cmds: seq<Line>, from: nat, depth: nat, x: nat)
    requires from <= x < |cmds| && d.IsEnd(cmds[x]) && !d.IsOpen(cmds[x])
    ensures FirstEnd(d, cmds, from, depth) == Some(x)
       <==> depth + Balance(d, cmds[from..x]) == 0 && StaysOpen(d, cmds[from..x], depth)
    decreases x - from
  {
    var lines := cmds[from..x];
    if from == x {
      assert forall i :: 0 <= i <= |lines| ==> lines[..i] == [];
      if depth > 0 && FirstEnd(d, cmds, from + 1, depth - 1).Some? { FirstEndIsEnd(d, cmds, from + 1, depth - 1); }
    } else {
      assert lines[0] == cmds[from] && lines[1..] == cmds[from + 1..x];
      StaysOpenStep(d, lines, depth);
      var next := depth + Weight(d, cmds[from]);
      if next >= 0 { FirstEndIff(d, cmds, from + 1, next, x); }
    }
  }

  lemma {:induction false} BalanceConcat(d: Defs, a: seq<Line>, b: seq<Line>)
    ensures Balance(d, a + b) == Balance(d, a) + Balance(d, b)
    decreases |a|
  {
    if a == [] {
      assert a + b == b;
    } else {
      assert (a + b)[1..] == a[1..] + b;
      BalanceConcat(d, a[1..], b);
    }
  }

  lemma BalanceNone(d: Defs)
    ensures Balance(d, []) == 0
  {
  }

  lemma BalanceOne(d: Defs, line: Line)
    ensures Balance(d, [line]) == Weight(d, line)
  {
    assert [line][1..] == [];
  }

  /** A rendered body is out of balance by its mistaken marks and by its unknown blocks. */
  lemma {:induction false} BalanceRendered(d: Defs, s: Script)
    requires d.WellNamed() && Fits(d, s)
    ensures Balance(d, Render(s)) == Mistaken(d, s) - Strangers(d, s)
  {
    hide Defs.WellNamed, Balance;
    match s
    case Stop => BalanceNone(d);
    case Plain(line, rest) =>
      BalanceConcat(d, [line], Render(rest));
      BalanceOne(d, line);
      BalanceRendered(d, rest);
    case Mark(name, rest) =>
      RolesOf(d, name);
      BalanceConcat(d, [Some(name)], Render(rest));
      BalanceOne(d, Some(name));
      BalanceRendered(d, rest);
    case Block(open, body, close, rest) =>
      RenderBlock(s);
      RolesOf(d, open);
      RolesOf(d, close);
      var tail := [Some(close)] + Render(rest);
      BalanceConcat(d, [Some(open)], Render(body) + tail);
      BalanceConcat(d, Render(body), tail);
      BalanceConcat(d, [Some(close)], Render(rest));
      BalanceOne(d, Some(open));
      BalanceOne(d, Some(close));
      BalanceRendered(d, body);
      BalanceRendered(d, rest);
  }

  /** Passing a rendered body of known blocks leaves the counter where it was, plus one for each
      mistaken mark. */
  lemma {:induction false} RenderedDepth(d: Defs, cmds: seq<Line>, p: nat, s: Script, depth: nat)
    requires d.WellNamed() && Fits(d, s) && Strangers(d, s) == 0 && At(cmds, p, Render(s))
    ensures FirstEnd(d, cmds, p, depth) == FirstEnd(d, cmds, p + |Render(s)|, depth + Mistaken(d, s))
    decreases s
  {
    hide Defs.WellNamed, At, FirstEnd;
    match s
    case Stop =>
    case Plain(line, rest) =>
      AtHead(cmds, p, line, Render(rest));
      Count(d, cmds, p, depth);
      RenderedDepth(d, cmds, p + 1, rest, depth);
    case Mark(name, rest) =>
      AtHead(cmds, p, Some(name), Render(rest));
      RolesOf(d, name);
      Count(d, cmds, p, depth);
      RenderedDepth(d, cmds, p + 1, rest, depth + (if name in d.openers then 1 else 0));
    case Block(open, body, close, rest) =>
      AtBlock(cmds, p, s);
      RolesOf(d, open);
      RolesOf(d, close);
      var x := p + 1 + |Render(body)|;
      Count(d, cmds, p, depth);
      RenderedDepth(d, cmds, p + 1, body, depth + 1);
      Count(d, cmds, x, depth + 1 + Mistaken(d, body));
      RenderedDepth(d, cmds, x + 1, rest, depth + Mistaken(d, body));
  }

  /** The search finds the closer of the body it starts in if and only if the body mistakes as many
      marks for openers as it has blocks of unknown kind, and no prefix of it ends too much. If it
      has none of the one, it must have none of the other. */
  lemma FindsOwnEndIff(d: Defs, cmds: seq<Line>, start: nat, body: Script, close: string)
    requires d.WellNamed() && Fits(d, body) && close in d.end
    requires At(cmds, start, Render(body) + [Some(close)])
    ensures FirstEnd(d, cmds, start, 0) == Some(start + |Render(body)|)
       <==> Mistaken(d, body) == Strangers(d, body) && StaysOpen(d, Render(body), 0)
    ensures Strangers(d, body) == 0 || Mistaken(d, body) == 0 ==>
              (FirstEnd(d, cmds, start, 0) == Some(start + |Render(body)|)
               <==> Mistaken(d, body) == Strangers(d, body))
  {
    AtConcat(cmds, start, Render(body), [Some(close)]);
    var x := start + |Render(body)|;
    assert [Some(close)] == [Some(close)] + [];
    AtHead(cmds, x, Some(close), []);
    RolesOf(d, close);
    assert cmds[start..x] == Render(body);
    FirstEndIff(d, cmds, start, 0, x);
    BalanceRendered(d, body);
    if Strangers(d, body) == 0 && Mistaken(d, body) == 0 {
      RenderedDepth(d, cmds, start, body, 0);
    }
  }

  /** The lines of the marks that stand directly in a body rendered at line `p`. */
  function MarkLines(s: Script, p: nat): seq<nat> {
    match s
    case Stop => []
    case Plain(_, rest) => MarkLines(rest, p + 1)
    case Mark(_, rest) => [p] + MarkLines(rest, p + 1)
    case Block(_, body, _, rest) => MarkLines(rest, p + |Render(body)| + 2)
  }

  /** Marks are middle names and stand only directly in bodies of the own kind; blocks are of a known
      kind. */
  predicate MarksBelong(d: Defs, s: Script, own: bool) {
    match s
    case Stop => true
    case Plain(_, rest) => MarksBelong(d, rest, own)
    case Mark(name, rest) => own && name in d.middle && MarksBelong(d, rest, own)
    case Block(open, body, _, rest) =>
      Known(d, open) && MarksBelong(d, body, open !in d.openers) && MarksBelong(d, rest, own)
  }

  lemma {:induction false} MarkLinesBounds(s: Script, p: nat)
    ensures Increasing(MarkLines(s, p))
    ensures forall m :: m in MarkLines(s, p) ==> p <= m < p + |Render(s)|
  {
    match s
    case Stop =>
    case Plain(_, rest) => MarkLinesBounds(rest, p + 1);
    case Mark(_, rest) =>
      MarkLinesBounds(rest, p + 1);
      var tail := MarkLines(rest, p + 1);
      assert forall i :: 0 <= i < |tail| ==> tail[i] in tail;
    case Block(_, body, _, rest) => MarkLinesBounds(rest, p + |Render(body)| + 2);
  }

  lemma NoMistakes(d: Defs, s: Script, own: bool)
    requires d.WellNamed() && MarksBelong(d, s, own)
    ensures Mistaken(d, s) == 0 && Strangers(d, s) == 0
    ensures forall p: nat :: !own ==> MarkLines(s, p) == []
  {
    match s
    case Stop =>
    case Plain(_, rest) => NoMistakes(d, rest, own);
    case Mark(name, rest) =>
      RolesOf(d, name);
      NoMistakes(d, rest, own);
    case Block(open, body, _, rest) =>
      NoMistakes(d, body, open !in d.openers);
      NoMistakes(d, rest, own);
  }

  /** Whether a line past a region without unclosed own blocks is listed does not depend on the
      region. */
  lemma ListedFromLater(d: Defs, cmds: seq<Line>, p: nat, q: nat, m: nat)
    requires p <= q <= m < |cmds| && Outside(d, cmds, p, q)
    ensures Listed(d, cmds, p, m) <==> Listed(d, cmds, q, m)
  {
  }

  /** Inside a rendered body the listed lines are exactly its direct marks. */
  lemma {:induction false} ListedAreMarks(d: Defs, cmds: seq<Line>, p: nat, s: Script, own: bool, m: nat)
    requires d.WellNamed() && Fits(d, s) && MarksBelong(d, s, own) && At(cmds, p, Render(s))
    requires p <= m < p + |Render(s)|
    ensures Listed(d, cmds, p, m) <==> m in MarkLines(s, p)
    decreases s, 1
  {
    MarkLinesBounds(s, p);
    match s
    case Stop =>
    case Plain(line, rest) =>
      AtHead(cmds, p, line, Render(rest));
      MarkLinesBounds(rest, p + 1);
      if m > p {
        ListedFromLater(d, cmds, p, p + 1, m);
        ListedAreMarks(d, cmds, p + 1, rest, own, m);
      }
    case Mark(name, rest) =>
      AtHead(cmds, p, Some(name), Render(rest));
      RolesOf(d, name);
      if m > p {
        ListedFromLater(d, cmds, p, p + 1, m);
        ListedAreMarks(d, cmds, p + 1, rest, own, m);
      }
    case Block(open, body, close, rest) =>
      AtBlock(cmds, p, s);
      ListedInBlock(d, cmds, p, s, own, m);
  }

  /** Behind the closer of a block nothing inside it is open any more. */
  lemma BlockIsClosed(d: Defs, cmds: seq<Line>, p: nat, x: nat)
    requires d.WellNamed() && p < x < |cmds| && d.IsOpen(cmds[p]) && d.IsEnd(cmds[x]) && !d.IsOwn(cmds[x])
    requires FirstEnd(d, cmds, p + 1, 0) == Some(x)
    ensures Outside(d, cmds, p, x + 1)
  {
    hide Defs.WellNamed;
    forall o | p <= o < x + 1 && d.IsOwn(cmds[o])
      ensures FirstEnd(d, cmds, o + 1, 0).Some? && FirstEnd(d, cmds, o + 1, 0).value < x + 1
    {
      if p < o < x { NestedClosed(d, cmds, p + 1, 0, o); }
    }
  }

  /** The block from `p` ends at `x`, behind which the search goes on. */
  lemma BlockEnds(d: Defs, cmds: seq<Line>, p: nat, s: Script, own: bool) returns (x: nat)
    requires d.WellNamed() && s.Block? && Fits(d, s) && MarksBelong(d, s, own) && At(cmds, p, Render(s))
    ensures x == p + 1 + |Render(s.body)| && p + |Render(s)| == x + 1 + |Render(s.rest)| <= |cmds|
    ensures FirstEnd(d, cmds, p + 1, 0) == Some(x) && Outside(d, cmds, p, x + 1)
    ensures !d.IsMiddle(cmds[p]) && !d.IsMiddle(cmds[x])
    ensures d.IsOwn(cmds[p]) <==> s.open !in d.openers
    ensures At(cmds, p + 1, Render(s.body)) && At(cmds, x + 1, Render(s.rest))
    ensures s.open in d.openers ==> Outside(d, cmds, p, p + 1)
    ensures MarkLines(s, p) == MarkLines(s.rest, x + 1)
    ensures s.open in d.openers ==> forall q: nat :: MarkLines(s.body, q) == []
  {
    x := p + 1 + |Render(s.body)|;
    AtBlock(cmds, p, s);
    AtFits(cmds, p, Render(s));
    RolesOf(d, s.open);
    RolesOf(d, s.close);
    NoMistakes(d, s.body, s.open !in d.openers);
    hide Defs.WellNamed, At;
    RenderedDepth(d, cmds, p + 1, s.body, 0);
    assert FirstEnd(d, cmds, p + 1, 0) == Some(x);
    BlockIsClosed(d, cmds, p, x);
  }

  lemma ListedInBlock(d: Defs, cmds: seq<Line>, p: nat, s: Script, own: bool, m: nat)
    requires d.WellNamed() && s.Block? && Fits(d, s) && MarksBelong(d, s, own) && At(cmds, p, Render(s))
    requires p <= m < p + |Render(s)|
    ensures Listed(d, cmds, p, m) <==> m in MarkLines(s, p)
    decreases s, 0
  {
    var x := BlockEnds(d, cmds, p, s, own);
    MarkLinesBounds(s.rest, x + 1);
    hide Defs.WellNamed, At, Render, MarkLines, FirstEnd;
    if p < m < x {
      if s.open !in d.openers {
        assert !Outside(d, cmds, p, m);
      } else {
        ListedFromLater(d, cmds, p, p + 1, m);
        ListedAreMarks(d, cmds, p + 1, s.body, false, m);
      }
    } else if m > x {
      ListedFromLater(d, cmds, p, x + 1, m);
      ListedAreMarks(d, cmds, x + 1, s.rest, own, m);
    }
  }

  /** Searching a rendered block recovers it: its end and the lines of its own branches. */
  lemma RecoversRenderedBlock(d: Defs, cmds: seq<Line>, start: nat, body: Script, close: string, middles: seq<nat>)
    requires d.WellNamed() && Fits(d, body) && MarksBelong(d, body, true) && close in d.end
    requires At(cmds, start, Render(body) + [Some(close)])
    ensures Found(d, cmds, start, start + |Render(body)|, middles) <==> middles == MarkLines(body, start)
  {
    var x, marks := start + |Render(body)|, MarkLines(body, start);
    NoMistakes(d, body, true);
    FindsOwnEndIff(d, cmds, start, body, close);
    MarkLinesBounds(body, start);
    AtConcat(cmds, start, Render(body), [Some(close)]);
    forall m: nat
      ensures m in marks <==> m < x && Listed(d, cmds, start, m)
    {
      if start <= m < x { ListedAreMarks(d, cmds, start, body, true, m); }
    }
    if Found(d, cmds, start, x, middles) { SameIncreasing(middles, marks); }
  }

  lemma HeadIn(s: seq<nat>)
    ensures s != [] ==> s[0] in s
  {
  }

  lemma {:induction false} SameIncreasing(a: seq<nat>, b: seq<nat>)
    requires Increasing(a) && Increasing(b) && forall m: nat :: m in a <==> m in b
    ensures a == b
    decreases |a|
  {
    HeadIn(a);
    HeadIn(b);
    if a != [] {
      assert a[0] in b && b[0] in a;
      assert a[0] == b[0];
      forall m: nat
        ensures m in a[1..] <==> m in b[1..]
      {
        assert m in a <==> m == a[0] || m in a[1..];
        assert m in b <==> m == b[0] || m in b[1..];
        if m in a[1..] { assert m > a[0]; }
        if m in b[1..] { assert m > b[0]; }
      }
      SameIncreasing(a[1..], b[1..]);
    }
  }

  // ----- the tables the commands pass in -----

  const END := ["end"]
  const BRANCHES := ["else", "else_if"]
  const IF := Defs(["if"], BRANCHES, END, ["proc", "procedure", "for"], END)
  const PROCEDURE := Defs(["proc", "procedure"], [], END, ["if", "else", "else_if", "for", "state"], END)
  const FOR := Defs(["for"], [], END, ["if", "else", "else_if", "for", "proc", "procedure"], END)
  const LOOP := Defs(["loop", "while"], [], END, ["proc", "procedure", "for"], END)
  const STATE := Defs(["state"], [], END, ["if", "else", "else_if", "for", "proc", "procedure", "component"], END)
  const MACHINE := Defs(["machine"], [], END, ["if", "else", "else_if", "for", "proc", "procedure", "state"], END)
  const COMPONENT := Defs(["component"], [], END, ["if", "else", "else_if", "for", "proc", "procedure", "state"], END)

  predicate Plainly(d: Defs) {
    && d.end == END && d.closers == END && (d.middle == [] || d.middle == BRANCHES)
    && "end" !in d.openers && "end" !in d.begin
    && (d.middle != [] ==>
          && "else" !in d.openers && "else" !in d.begin
          && "else_if" !in d.openers && "else_if" !in d.begin)
  }

  lemma PlainlyWellNamed(d: Defs)
    requires Plainly(d)
    ensures d.WellNamed()
  {
    NamesDiffer();
    assert ToSet(END) == {"end"};
    assert ToSet(BRANCHES) == {"else", "else_if"};
    assert d.middle == [] ==> ToSet(d.middle) == {};
  }

  /** The tables of all seven commands keep opening, branch and end names apart. */
  lemma TablesWellNamed()
    ensures IF.WellNamed() && PROCEDURE.WellNamed() && FOR.WellNamed() && LOOP.WellNamed()
    ensures STATE.WellNamed() && MACHINE.WellNamed() && COMPONENT.WellNamed()
  {
    NamesDiffer();
    assert Plainly(IF) && Plainly(PROCEDURE) && Plainly(FOR) && Plainly(LOOP);
    assert Plainly(STATE) && Plainly(MACHINE) && Plainly(COMPONENT);
    hide Plainly, Defs.WellNamed;
    PlainlyWellNamed(IF);
    PlainlyWellNamed(PROCEDURE);
    PlainlyWellNamed(FOR);
    PlainlyWellNamed(LOOP);
    PlainlyWellNamed(STATE);
    PlainlyWellNamed(MACHINE);
    PlainlyWellNamed(COMPONENT);
  }

  lemma NamesDiffer()
    ensures |"if"| == 2 && |"for"| == 3 && |"end"| == 3 && |"proc"| == 4 && |"else"| == 4 && |"loop"| == 4
         && |"state"| == 5 && |"while"| == 5 && |"else_if"| == 7 && |"machine"| == 7
         && |"procedure"| == 9 && |"component"| == 9
    ensures "for" != "end" && "proc" != "else" && "loop" != "else" && "machine" != "else_if"
  {
    assert "for"[0] == 'f' && "end"[0] == 'e' && "proc"[0] == 'p' && "else"[0] == 'e' && "loop"[0] == 'l';
    assert "machine"[0] == 'm' && "else_if"[0] == 'e';
  }

  /** The names that open the blocks of the script, at any depth. */
  function Openers(s: Script): set<string> {
    match s
    case Stop => {}
    case Plain(_, rest) => Openers(rest)
    case Mark(_, rest) => Openers(rest)
    case Block(open, body, _, rest) => {open} + Openers(body) + Openers(rest)
  }

  lemma {:induction false} NoStrangersIff(d: Defs, s: Script)
    ensures Strangers(d, s) == 0 <==> forall x :: x in Openers(s) ==> Known(d, x)
    decreases s
  {
    match s
    case Stop =>
    case Plain(_, rest) => NoStrangersIff(d, rest);
    case Mark(_, rest) => NoStrangersIff(d, rest);
    case Block(_, body, _, rest) =>
      NoStrangersIff(d, body);
      NoStrangersIff(d, rest);
  }

  lemma {:induction false} KnowsAll(d: Defs, names: set<string>, s: Script)
    requires forall x :: x in names <==> Known(d, x) && x !in BRANCHES
    requires Openers(s) !! ToSet(BRANCHES)
    ensures Strangers(d, s) == 0 <==> Openers(s) <= names
  {
    NoStrangersIff(d, s);
    assert forall x :: x in BRANCHES <==> x in ToSet(BRANCHES);
  }

  lemma BranchingBlocks(s: Script)
    requires Openers(s) !! ToSet(BRANCHES)
    ensures Strangers(IF, s) == 0 <==> Openers(s) <= {"if", "proc", "procedure", "for"}
    ensures Strangers(PROCEDURE, s) == 0 <==> Openers(s) <= {"proc", "procedure", "if", "for", "state"}
  {
    hide Strangers, Openers;
    KnowsAll(IF, {"if", "proc", "procedure", "for"}, s);
    KnowsAll(PROCEDURE, {"proc", "procedure", "if", "for", "state"}, s);
  }

  lemma LoopBlocks(s: Script)
    requires Openers(s) !! ToSet(BRANCHES)
    ensures Strangers(FOR, s) == 0 <==> Openers(s) <= {"for", "if", "proc", "procedure"}
    ensures Strangers(LOOP, s) == 0 <==> Openers(s) <= {"loop", "while", "proc", "procedure", "for"}
  {
    hide Strangers, Openers;
    KnowsAll(FOR, {"for", "if", "proc", "procedure"}, s);
    KnowsAll(LOOP, {"loop", "while", "proc", "procedure", "for"}, s);
  }

  lemma StateBlocks(s: Script)
    requires Openers(s) !! ToSet(BRANCHES)
    ensures Strangers(STATE, s) == 0 <==> Openers(s) <= {"state", "if", "for", "proc", "procedure", "component"}
  {
    hide Strangers, Openers;
    KnowsAll(STATE, {"state", "if", "for", "proc", "procedure", "component"}, s);
  }

  lemma MachineBlocks(s: Script)
    requires Openers(s) !! ToSet(BRANCHES)
    ensures Strangers(MACHINE, s) == 0 <==> Openers(s) <= {"machine", "if", "for", "proc", "procedure", "state"}
  {
    hide Strangers, Openers;
    KnowsAll(MACHINE, {"machine", "if", "for", "proc", "procedure", "state"}, s);
  }

  lemma ComponentBlocks(s: Script)
    requires Openers(s) !! ToSet(BRANCHES)
    ensures Strangers(COMPONENT, s) == 0 <==> Openers(s) <= {"component", "if", "for", "proc", "procedure", "state"}
  {
    hide Strangers, Openers;
    KnowsAll(COMPONENT, {"component", "if", "for", "proc", "procedure", "state"}, s);
  }

  /** Which blocks the commands know: a body is not ended early by a block exactly if it is made of those. */
  lemma {:induction false} KnownBlocks(s: Script)
    requires Openers(s) !! ToSet(BRANCHES)
    ensures Strangers(IF, s) == 0 <==> Openers(s) <= {"if", "proc", "procedure", "for"}
    ensures Strangers(PROCEDURE, s) == 0 <==> Openers(s) <= {"proc", "procedure", "if", "for", "state"}
    ensures Strangers(FOR, s) == 0 <==> Openers(s) <= {"for", "if", "proc", "procedure"}
    ensures Strangers(LOOP, s) == 0 <==> Openers(s) <= {"loop", "while", "proc", "procedure", "for"}
    ensures Strangers(STATE, s) == 0 <==> Openers(s) <= {"state", "if", "for", "proc", "procedure", "component"}
    ensures Strangers(MACHINE, s) == 0 <==> Openers(s) <= {"machine", "if", "for", "proc", "procedure", "state"}
    ensures Strangers(COMPONENT, s) == 0 <==> Openers(s) <= {"component", "if", "for", "proc", "procedure", "state"}
  {
    hide *;
    BranchingBlocks(s);
    LoopBlocks(s);
    StateBlocks(s);
    MachineBlocks(s);
    ComponentBlocks(s);
  }

  // ----- every block that is found is a rendered one -----

  /** What the search finds is the rendering of a body that it knows all blocks of and mistakes nothing in. */
  lemma {:induction false} FoundIsRendered(d: Defs, cmds: seq<Line>, from: nat, x: nat) returns (s: Script)
    requires d.WellNamed() && FirstEnd(d, cmds, from, 0) == Some(x)
    ensures from <= x < |cmds| && d.IsEnd(cmds[x])
    ensures Fits(d, s) && Render(s) == cmds[from..x] && Strangers(d, s) == 0 && Mistaken(d, s) == 0
    decreases |cmds| - from
  {
    FirstEndIsEnd(d, cmds, from, 0);
    if from == x {
      s := Stop;
      return;
    }
    var line := cmds[from];
    if d.IsOpen(line) {
      InnerEndFirst(d, cmds, from + 1, 0, 0);
      var e := FirstEnd(d, cmds, from + 1, 0).value;
      var body := FoundIsRendered(d, cmds, from + 1, e);
      var rest := FoundIsRendered(d, cmds, e + 1, x);
      RolesOf(d, line.value);
      RolesOf(d, cmds[e].value);
      s := Block(line.value, body, cmds[e].value, rest);
      BlockRendered(cmds, from, e, x, s);
    } else {
      var rest := FoundIsRendered(d, cmds, from + 1, x);
      assert cmds[from..x] == [line] + cmds[from + 1..x];
      if d.IsMiddle(line) {
        RolesOf(d, line.value);
        s := Mark(line.value, rest);
      } else {
        s := Plain(line, rest);
      }
    }
  }

  lemma BlockRendered(cmds: seq<Line>, from: nat, e: nat, x: nat, s: Script)
    requires s.Block? && from < e < x <= |cmds|
    requires cmds[from] == Some(s.open) && cmds[e] == Some(s.close)
    requires Render(s.body) == cmds[from + 1..e] && Render(s.rest) == cmds[e + 1..x]
    ensures Render(s) == cmds[from..x]
  {
    assert cmds[from..x] == [cmds[from]] + cmds[from + 1..e] + [cmds[e]] + cmds[e + 1..x];
  }

  /** Without branch marks the marks are where they belong, if all blocks are known. */
  lemma {:induction false} NoMarksBelong(d: Defs, s: Script, own: bool)
    requires Branches(s) == 0
    ensures MarksBelong(d, s, own) <==> Strangers(d, s) == 0
    decreases s
  {
    match s
    case Stop =>
    case Plain(_, rest) => NoMarksBelong(d, rest, own);
    case Mark(_, _) =>
    case Block(open, body, _, rest) =>
      NoMarksBelong(d, body, open !in d.openers);
      NoMarksBelong(d, rest, own);
  }

  /** How many branch marks occur in the script, at any depth. */
  function Branches(s: Script): nat {
    match s
    case Stop => 0
    case Plain(_, rest) => Branches(rest)
    case Mark(_, rest) => 1 + Branches(rest)
    case Block(_, body, _, rest) => Branches(body) + Branches(rest)
  }

  /** The table of `procedure` counts branch marks as openers and does not know loops, among others. A
      procedure finds its own end if and only if the two come up equally often and no prefix of its
      body ends too much; without the one kind, if and only if it is without the other. */
  lemma ProcedureEndIff(cmds: seq<Line>, start: nat, body: Script)
    requires Fits(PROCEDURE, body) && At(cmds, start, Render(body) + [Some("end")])
    ensures FirstEnd(PROCEDURE, cmds, start, 0) == Some(start + |Render(body)|)
       <==> Branches(body) == Strangers(PROCEDURE, body) && StaysOpen(PROCEDURE, Render(body), 0)
    ensures Strangers(PROCEDURE, body) == 0 || Branches(body) == 0 ==>
              (FirstEnd(PROCEDURE, cmds, start, 0) == Some(start + |Render(body)|)
               <==> Branches(body) == Strangers(PROCEDURE, body))
  {
    TablesWellNamed();
    assert PROCEDURE.end[0] == "end";
    FindsOwnEndIff(PROCEDURE, cmds, start, body, "end");
    MarksAreMistaken(body);
  }

  lemma {:induction false} MarksAreMistaken(s: Script)
    requires Fits(PROCEDURE, s)
    ensures Mistaken(PROCEDURE, s) == Branches(s)
  {
    match s
    case Stop =>
    case Plain(_, rest) => MarksAreMistaken(rest);
    case Mark(_, rest) => MarksAreMistaken(rest);
    case Block(_, body, _, rest) =>
      MarksAreMistaken(body);
      MarksAreMistaken(rest);
  }
}
