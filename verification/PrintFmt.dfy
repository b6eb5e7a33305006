/** Formatted printing: placeholders are cut out first, values are put back at recorded offsets. A text
    is the sequence of its bytes, which is what offsets count. */
module PrintFmt {
  import opened Common
  import A = Address

  /** Where values go in the text without placeholders. */
  datatype Command = Command(fmt: string, inserts: seq<(nat, A.Address)>)

  /** What an address currently prints as, if it can be read. */
  type Values = A.Address -> Option<string>

  predicate HoleAt(s: string, i: int) {
    0 <= i && i + 1 < |s| && s[i] == '{' && s[i + 1] == '}'
  }

  ghost predicate NoHole(s: string) {
    forall i :: !HoleAt(s, i)
  }

  /** The first placeholder. */
  function Hole(s: string): (r: Option<nat>)
    ensures r.Some? ==> HoleAt(s, r.value) && forall j :: 0 <= j < r.value ==> !HoleAt(s, j)
    ensures r.None? ==> NoHole(s)
    decreases |s|
  {
    if |s| < 2 then None
    else if HoleAt(s, 0) then Some(0)
    else
      var r := Hole(s[1..]);
      assert forall j :: j > 0 ==> (HoleAt(s, j) <==> HoleAt(s[1..], j - 1));
      if r.Some? then Some(r.value + 1) else None
  }

  function Cut(s: string, i: nat): string
    requires i + 2 <= |s|
  {
    s[..i] + s[i + 2..]
  }

  predicate Read(free: seq<string>, k: nat) {
    k < |free| && A.Parse(free[k]).Success?
  }

  /** Reading this argument reaches a type name the reader has no code for. */
  predicate Stuck(free: seq<string>, k: nat) {
    k < |free| && A.Parse(free[k]) == Failure(A.Unimplemented)
  }

  function Mark(free: seq<string>, k: nat, i: nat): seq<(nat, A.Address)> {
    if Read(free, k) then [(i, A.Parse(free[k]).value)] else []
  }

  /** Cutting placeholders one after the other; the k-th argument belongs to the next one. */
  function Strip(fmt: string, free: seq<string>, k: nat): Result<Command, A.ParseError>
    decreases |fmt|
  {
    var hole := Hole(fmt);
    if hole.None? then Success(Command(fmt, []))
    else if Stuck(free, k) then Failure(A.Unimplemented)
    else Prefixed(Mark(free, k, hole.value), Strip(Cut(fmt, hole.value), free, k + 1))
  }

  function Prefixed(inserts: seq<(nat, A.Address)>, r: Result<Command, A.ParseError>): Result<Command, A.ParseError> {
    if r.Failure? then r else Success(Command(r.value.fmt, inserts + r.value.inserts))
  }

  /** The command read from the arguments. A template that reads as an address stands for its value
      alone. */
  function Parsed(free: seq<string>): Result<Command, A.ParseError>
    requires |free| > 0
  {
    if Stuck(free, 0) then Failure(A.Unimplemented)
    else if Read(free, 0) then Success(Command("", Mark(free, 0, 0)))
    else Strip(free[0], free, 1)
  }

  method FromArgs(free: seq<string>) returns (r: Result<Command, A.ParseError>)
    requires |free| > 0
    ensures r == Parsed(free)
  {
    hide A.Parse;
    if Stuck(free, 0) { return Failure(A.Unimplemented); }
    if Read(free, 0) { return Success(Command("", [(0, A.Parse(free[0]).value)])); }
    var fmt := free[0];
    var inserts: seq<(nat, A.Address)> := [];
    var count := 1;
    PrefixedNone(Strip(fmt, free, count));
    while true
      invariant count >= 1 && Strip(free[0], free, 1) == Prefixed(inserts, Strip(fmt, free, count))
      decreases |fmt|
    {
      var hole := Hole(fmt);
      if hole.None? {
        assert inserts + [] == inserts;
        return Success(Command(fmt, inserts));
      }
      if Stuck(free, count) { return Failure(A.Unimplemented); }
      PrefixedTwice(inserts, Mark(free, count, hole.value), Strip(Cut(fmt, hole.value), free, count + 1));
      fmt := Cut(fmt, hole.value);
      if Read(free, count) {
        inserts := inserts + [(hole.value, A.Parse(free[count]).value)];
      } else {
        assert inserts + [] == inserts;
      }
      count := count + 1;
    }
  }

  lemma PrefixedNone(r: Result<Command, A.ParseError>)
    ensures Prefixed([], r) == r
  {
    if r.Success? { assert [] + r.value.inserts == r.value.inserts; }
  }

  lemma PrefixedTwice(a: seq<(nat, A.Address)>, b: seq<(nat, A.Address)>, r: Result<Command, A.ParseError>)
    ensures Prefixed(a, Prefixed(b, r)) == Prefixed(a + b, r)
  {
    if r.Success? { assert a + (b + r.value.inserts) == a + b + r.value.inserts; }
  }

  // ----- putting the values back -----

  /** None where an offset lies past the end of the text. */
  function Inserted(text: string, inserts: seq<(nat, A.Address)>, values: Values, added: nat): Option<string>
    decreases |inserts|
  {
    if inserts == [] then Some(text)
    else
      var (i, a) := inserts[0];
      if values(a).None? then Inserted(text, inserts[1..], values, added)
      else if i + added > |text| then None
      else
        var v := values(a).value;
        Inserted(text[..i + added] + v + text[i + added..], inserts[1..], values, added + |v|)
  }

  method Execute(c: Command, values: Values) returns (r: Option<string>)
    ensures r == Inserted(c.fmt, c.inserts, values, 0)
  {
    var output := c.fmt;
    var trackAdded: nat := 0;
    assert c.inserts[0..] == c.inserts;
    for n := 0 to |c.inserts|
      invariant Inserted(c.fmt, c.inserts, values, 0) == Inserted(output, c.inserts[n..], values, trackAdded)
    {
      assert c.inserts[n..][1..] == c.inserts[n + 1..];
      var (index, addr) := c.inserts[n];
      var substring := values(addr);
      if substring.Some? {
        if index + trackAdded > |output| { return None; }
        output := output[..index + trackAdded] + substring.value + output[index + trackAdded..];
        trackAdded := trackAdded + |substring.value|;
      }
    }
    return Some(output);
  }

  /** What the arguments print, if nothing panics on the way. */
  function Printed(free: seq<string>, values: Values): Option<string>
    requires |free| > 0
  {
    var c := Parsed(free);
    if c.Failure? then None else Inserted(c.value.fmt, c.value.inserts, values, 0)
  }

  method Print(free: seq<string>, values: Values) returns (r: Option<string>)
    requires |free| > 0
    ensures r == Printed(free, values)
  {
    var c := FromArgs(free);
    if c.Failure? { return None; }
    r := Execute(c.value, values);
  }

  // ----- direct interpolation -----

  function Concat(pieces: seq<string>): string
    decreases |pieces|
  {
    if pieces == [] then "" else pieces[0] + Concat(pieces[1..])
  }

  /** The literal pieces with placeholders between them. */
  function Template(pieces: seq<string>): string
    requires pieces != []
    decreases |pieces|
  {
    if |pieces| == 1 then pieces[0] else pieces[0] + "{}" + Template(pieces[1..])
  }

  /** What the k-th argument contributes: nothing if it is missing, unreadable or has no value. */
  function Text(free: seq<string>, k: nat, values: Values): string {
    if Read(free, k) && values(A.Parse(free[k]).value).Some? then values(A.Parse(free[k]).value).value else ""
  }

  function Rest(pieces: seq<string>, free: seq<string>, k: nat, values: Values): string
    decreases |pieces|
  {
    if pieces == [] then "" else Text(free, k, values) + pieces[0] + Rest(pieces[1..], free, k + 1, values)
  }

  /** The template with every placeholder replaced in place. */
  function Interpolated(pieces: seq<string>, free: seq<string>, values: Values): string
    requires pieces != []
  {
    pieces[0] + Rest(pieces[1..], free, 1, values)
  }

  /** The first two pieces joined, as after cutting the placeholder between them. */
  function Fused(pieces: seq<string>): seq<string>
    requires |pieces| > 1
  {
    [pieces[0] + pieces[1]] + pieces[2..]
  }

  function Marks(pieces: seq<string>, free: seq<string>, k: nat): seq<(nat, A.Address)>
    requires pieces != []
    decreases |pieces|
  {
    if |pieces| == 1 then [] else Mark(free, k, |pieces[0]|) + Marks(Fused(pieces), free, k + 1)
  }

  lemma Associates(a: string, b: string, c: string)
    ensures a + (b + c) == a + b + c
  {
  }

  lemma ConcatTwo(p: string, q: string, rest: seq<string>)
    ensures Concat([p, q] + rest) == p + (q + Concat(rest))
    ensures Concat([p + q] + rest) == p + q + Concat(rest)
  {
    assert ([p, q] + rest)[1..] == [q] + rest && ([q] + rest)[1..] == rest && ([p + q] + rest)[1..] == rest;
  }

  lemma FusedConcat(pieces: seq<string>)
    requires |pieces| > 1
    ensures Concat(Fused(pieces)) == Concat(pieces)
  {
    hide Concat;
    var p, q, rest := pieces[0], pieces[1], pieces[2..];
    assert pieces == [p, q] + rest;
    ConcatTwo(p, q, rest);
    Associates(p, q, Concat(rest));
  }

  lemma {:induction false} PrefixHole(a: string, b: string, i: int)
    requires HoleAt(a, i)
    ensures HoleAt(a + b, i)
  {
  }

  lemma FirstHole(p: string, rest: string)
    requires NoHole(p)
    ensures Hole(p + "{}" + rest) == Some(|p|) && Cut(p + "{}" + rest, |p|) == p + rest
  {
    var t := p + "{}" + rest;
    assert HoleAt(t, |p|);
    forall i | 0 <= i < |p|
      ensures !HoleAt(t, i)
    {
      assert !HoleAt(p, i);
    }
    assert t[|p| + 2..] == rest;
  }

  /** The first placeholder of a template is the one after its first piece. */
  lemma {:induction false} TemplateHole(pieces: seq<string>)
    requires |pieces| > 1 && NoHole(pieces[0])
    ensures Hole(Template(pieces)) == Some(|pieces[0]|)
    ensures Cut(Template(pieces), |pieces[0]|) == Template(Fused(pieces))
  {
    hide Hole, Cut, HoleAt, NoHole;
    var p, f := pieces[0], Fused(pieces);
    FirstHole(p, Template(pieces[1..]));
    if |pieces| > 2 {
      assert f[1..] == pieces[1..][1..];
      var last := Template(pieces[1..][1..]);
      assert p + (pieces[1] + "{}" + last) == (p + pieces[1]) + "{}" + last;
    }
  }

  lemma {:induction false} StripTemplate(pieces: seq<string>, free: seq<string>, k: nat)
    requires pieces != [] && NoHole(Concat(pieces))
    requires forall j :: k <= j < k + |pieces| - 1 ==> !Stuck(free, j)
    ensures Strip(Template(pieces), free, k) == Success(Command(Concat(pieces), Marks(pieces, free, k)))
    decreases |pieces|
  {
    hide A.Parse;
    if |pieces| == 1 {
      assert Concat(pieces) == pieces[0] + "" == pieces[0];
    } else {
      NoHoleInFirst(pieces);
      TemplateHole(pieces);
      FusedConcat(pieces);
      StripTemplate(Fused(pieces), free, k + 1);
    }
  }

  /** One argument that panics stops the cutting, wherever it stands among those with a placeholder. */
  lemma {:induction false} StripPanics(pieces: seq<string>, free: seq<string>, k: nat, j: nat)
    requires pieces != [] && NoHole(Concat(pieces))
    requires k <= j < k + |pieces| - 1 && Stuck(free, j)
    ensures Strip(Template(pieces), free, k).Failure?
    decreases |pieces|
  {
    hide A.Parse;
    NoHoleInFirst(pieces);
    TemplateHole(pieces);
    FusedConcat(pieces);
    if k < j { StripPanics(Fused(pieces), free, k + 1, j); }
  }

  lemma NoHoleInFirst(pieces: seq<string>)
    requires pieces != [] && NoHole(Concat(pieces))
    ensures NoHole(pieces[0])
  {
    forall i
      ensures !HoleAt(pieces[0], i)
    {
      if HoleAt(pieces[0], i) { PrefixHole(pieces[0], Concat(pieces[1..]), i); }
    }
  }

  /** One recorded offset, which lies after `done`. */
  lemma InsertOne(done: string, rest: string, free: seq<string>, k: nat, i: nat, more: seq<(nat, A.Address)>,
                  values: Values, added: nat)
    requires i + added == |done|
    ensures Inserted(done + rest, Mark(free, k, i) + more, values, added)
         == Inserted(done + Text(free, k, values) + rest, more, values, added + |Text(free, k, values)|)
  {
    hide A.Parse;
    var text, v, marks := done + rest, Text(free, k, values), Mark(free, k, i) + more;
    if Read(free, k) {
      assert marks[0] == (i, A.Parse(free[k]).value) && marks[1..] == more;
      assert text[..|done|] == done && text[|done|..] == rest;
    } else {
      assert marks == more;
    }
    if v == "" { assert done + v == done; }
  }

  lemma {:induction false} InsertMarks(pieces: seq<string>, done: string, free: seq<string>, k: nat, values: Values)
    requires pieces != [] && |done| >= |pieces[0]|
    ensures Inserted(done + Concat(pieces[1..]), Marks(pieces, free, k), values, |done| - |pieces[0]|)
         == Some(done + Rest(pieces[1..], free, k, values))
    decreases |pieces|
  {
    hide Text, Mark;
    if |pieces| == 1 {
      assert pieces[1..] == [];
    } else {
      var tail, v, added := Concat(pieces[2..]), Text(free, k, values), |done| - |pieces[0]|;
      assert pieces[1..][1..] == pieces[2..] && Fused(pieces)[1..] == pieces[2..];
      InsertOne(done, pieces[1] + tail, free, k, |pieces[0]|, Marks(Fused(pieces), free, k + 1), values, added);
      assert done + v + (pieces[1] + tail) == done + v + pieces[1] + tail;
      InsertMarks(Fused(pieces), done + v + pieces[1], free, k + 1, values);
      var more := Rest(pieces[2..], free, k + 1, values);
      assert done + (v + pieces[1] + more) == done + v + pieces[1] + more;
    }
  }

  /** No argument that belongs to one of the placeholders panics. */
  ghost predicate NeverStuck(free: seq<string>, n: nat) {
    forall j :: 1 <= j < n ==> !Stuck(free, j)
  }

  /** The template and the other arguments. */
  function Arguments(pieces: seq<string>, args: seq<string>): seq<string>
    requires pieces != []
  {
    [Template(pieces)] + args
  }

  ghost predicate Interpolates(pieces: seq<string>, args: seq<string>, values: Values)
    requires pieces != []
  {
    var free := Arguments(pieces, args);
    Printed(free, values) == Some(Interpolated(pieces, free, values))
  }

  /** Four parts are an address, or an address whose type cannot be read. */
  lemma FourParts(s: string)
    ensures |A.Split(s, '.')| == 4 <==> Read([s], 0) || Stuck([s], 0)
  {
    hide A.Split;
  }

  /** The template is not taken for an address. */
  predicate ReadAsText(template: string) {
    |A.Split(template, '.')| != 4
  }

  /** If the pieces joined together hold no placeholder and the template is not taken for an address,
      printing equals direct interpolation if and only if no argument with a placeholder panics. */
  lemma {:induction false} PrintsInterpolated(pieces: seq<string>, args: seq<string>, values: Values)
    requires pieces != [] && NoHole(Concat(pieces)) && ReadAsText(Template(pieces))
    ensures Interpolates(pieces, args, values) <==> NeverStuck(Arguments(pieces, args), |pieces|)
  {
    hide A.Parse, A.Split;
    var free := Arguments(pieces, args);
    FourParts(free[0]);
    if NeverStuck(free, |pieces|) {
      StripTemplate(pieces, free, 1);
      InsertMarks(pieces, pieces[0], free, 1, values);
    } else {
      var j :| 1 <= j < |pieces| && Stuck(free, j);
      StripPanics(pieces, free, 1, j);
    }
  }

  lemma {:induction false} StripLeavesNoHole(fmt: string, free: seq<string>, k: nat)
    requires |free| <= k
    ensures var c := Strip(fmt, free, k); c.Success? && NoHole(c.value.fmt) && c.value.inserts == []
    decreases |fmt|
  {
    var hole := Hole(fmt);
    if hole.Some? { StripLeavesNoHole(Cut(fmt, hole.value), free, k + 1); }
  }

  lemma {:induction false} NothingToInsert(pieces: seq<string>, free: seq<string>, k: nat, values: Values)
    requires |free| <= k
    ensures Rest(pieces, free, k, values) == Concat(pieces)
    decreases |pieces|
  {
    if pieces != [] {
      NothingToInsert(pieces[1..], free, k + 1, values);
      assert "" + pieces[0] + Concat(pieces[1..]) == pieces[0] + Concat(pieces[1..]);
    }
  }

  lemma {:induction false} DotsAreLiteral(pieces: seq<string>)
    requires pieces != []
    ensures '.' in Template(pieces) ==> '.' in Concat(pieces)
    decreases |pieces|
  {
    if |pieces| == 1 {
      assert Concat(pieces) == pieces[0] + "" == pieces[0];
    } else {
      DotsAreLiteral(pieces[1..]);
    }
  }

  /** A template that is an address prints as what the address stands for, whatever else is passed; or
      as nothing, if it stands for nothing. */
  lemma AddressPrintsValue(template: string, args: seq<string>, values: Values)
    requires A.Parse(template).Success?
    ensures var value := values(A.Parse(template).value);
            Printed([template] + args, values) == Some(if value.Some? then value.value else "")
  {
    hide A.Parse, A.Split;
    var free := [template] + args;
    var inserts := Mark(free, 0, 0);
    assert inserts == [(0, A.Parse(template).value)] && inserts[1..] == [];
    assert Parsed(free) == Success(Command("", inserts));
    var value := values(inserts[0].1);
    if value.Some? {
      assert "" + value.value + "" == value.value;
      assert Inserted("", inserts, values, 0) == Inserted(value.value, [], values, |value.value|);
    } else {
      assert Inserted("", inserts, values, 0) == Inserted("", [], values, 0);
    }
  }

  /** One of four parts that is no address panics, so it prints nothing at all. */
  lemma AddressOrPanic(template: string, args: seq<string>, values: Values)
    requires !ReadAsText(template)
    ensures A.Parse(template).Failure? ==> Printed([template] + args, values) == None
    ensures '.' in template
  {
    FourParts(template);
    A.SplitCount(template, '.');
    A.OccursIff(template, '.');
    hide A.Parse, A.Split;
  }

  /** Printing equals direct interpolation for exactly those arguments that do not panic, whatever the
      values, if and only if the pieces joined together hold no placeholder and the template does not
      have exactly four parts. */
  lemma InterpolatesIff(pieces: seq<string>)
    requires pieces != []
    ensures (forall args, values: Values ::
               Interpolates(pieces, args, values) <==> NeverStuck(Arguments(pieces, args), |pieces|))
       <==> NoHole(Concat(pieces)) && ReadAsText(Template(pieces))
  {
    hide A.Parse, A.Split;
    if NoHole(Concat(pieces)) && ReadAsText(Template(pieces)) {
      forall args, values: Values
        ensures Interpolates(pieces, args, values) <==> NeverStuck(Arguments(pieces, args), |pieces|)
      {
        PrintsInterpolated(pieces, args, values);
      }
    }
    OnlyThen(pieces, (a: A.Address) => None);
    assert NeverStuck(Arguments(pieces, []), |pieces|);
  }

  lemma {:induction false} OnlyThen(pieces: seq<string>, nothing: Values)
    requires pieces != [] && forall a :: nothing(a).None?
    ensures Interpolates(pieces, [], nothing) ==> NoHole(Concat(pieces)) && ReadAsText(Template(pieces))
  {
    hide A.Parse, A.Split;
    var free := Arguments(pieces, []);
    assert free == [Template(pieces)];
    NothingToInsert(pieces[1..], free, 1, nothing);
    assert Interpolated(pieces, free, nothing) == Concat(pieces);
    if ReadAsText(Template(pieces)) {
      FourParts(free[0]);
      StripLeavesNoHole(Template(pieces), free, 1);
    } else {
      var t := Template(pieces);
      AddressOrPanic(t, [], nothing);
      assert [t] + [] == [t];
      if A.Parse(t).Success? { AddressPrintsValue(t, [], nothing); }
      DotsAreLiteral(pieces);
    }
  }

  /** Doubled braces make a new placeholder once the first is cut, before the recorded offset: with two
      values the first one is put past the end of the text. */
  lemma DoubledBraces(free: seq<string>, values: Values)
    requires |free| == 3 && free[0] == "{{}}"
    requires Read(free, 1) && Read(free, 2) && values(A.Parse(free[1]).value).Some?
    ensures Printed(free, values).None?
  {
    var t := "{{}}";
    A.SplitCount(t, '.');
    A.OccursIff(t, '.');
    FourParts(t);
    hide A.Parse, A.Split;
    assert !HoleAt(t, 0) && HoleAt(t, 1);
    assert Hole(t) == Some(1);
    assert Cut(t, 1) == "{}";
    assert HoleAt("{}", 0) && Hole("{}") == Some(0);
    assert Cut("{}", 0) == "";
    assert Hole("") == None;
  }
}
