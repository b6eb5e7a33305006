/** The value types and their names, and the textual addresses of simulation data. */
module Address {
  import opened Common

  datatype VarType =
    | String | Int | Float | Bool | Byte | Vec2 | Vec3
    | StringList | IntList | FloatList | BoolList | ByteList | Vec2List | Vec3List | List
    | StringGrid | IntGrid | FloatGrid | BoolGrid | ByteGrid | Vec2Grid | Vec3Grid | Grid
    | Map

  /** `Unimplemented` stands for the panic of an unsupported case. */
  datatype ParseError = Invalid | Unimplemented

  // ----- splitting and joining -----

  function Split(s: string, c: char): (parts: seq<string>)
    ensures |parts| > 0
  {
    if s == "" then [""]
    else if s[0] == c then [""] + Split(s[1..], c)
    else
      var rest := Split(s[1..], c);
      [[s[0]] + rest[0]] + rest[1..]
  }

  function Join(parts: seq<string>, c: char): string
    requires |parts| > 0
  {
    if |parts| == 1 then parts[0] else parts[0] + [c] + Join(parts[1..], c)
  }

  lemma {:induction false} SplitPrefix(a: string, s: string, c: char)
    requires c !in a
    ensures Split(a + s, c) == [a + Split(s, c)[0]] + Split(s, c)[1..]
    decreases |a|
  {
    if a == "" {
      assert a + s == s;
      assert a + Split(s, c)[0] == Split(s, c)[0];
    } else {
      assert (a + s)[1..] == a[1..] + s;
      assert a[0] in a && forall x :: x in a[1..] ==> x in a;
      SplitPrefix(a[1..], s, c);
      assert [a[0]] + (a[1..] + Split(s, c)[0]) == a + Split(s, c)[0];
    }
  }

  /** Splitting a joined text gives back the parts, provided no part holds the separator. */
  lemma {:induction false} SplitJoin(parts: seq<string>, c: char)
    requires |parts| > 0 && forall p :: p in parts ==> c !in p
    ensures Split(Join(parts, c), c) == parts
    decreases |parts|
  {
    assert parts[0] in parts;
    if |parts| == 1 {
      SplitPrefix(parts[0], "", c);
      assert parts[0] + "" == parts[0];
    } else {
      var rest := Join(parts[1..], c);
      SplitJoin(parts[1..], c);
      SplitPrefix(parts[0], [c] + rest, c);
      assert ([c] + rest)[1..] == rest;
      assert Split([c] + rest, c) == [""] + parts[1..];
      assert parts[0] + "" == parts[0];
      assert parts[0] + [c] + rest == parts[0] + ([c] + rest);
    }
  }

  /** Each separator inside a part adds a part. */
  lemma {:induction false} SplitCount(s: string, c: char)
    ensures |Split(s, c)| == 1 + Occurrences(s, c)
  {
    if s != "" { SplitCount(s[1..], c); }
  }

  function Occurrences(s: string, c: char): nat {
    if s == "" then 0 else (if s[0] == c then 1 else 0) + Occurrences(s[1..], c)
  }

  lemma {:induction false} OccurrencesConcat(a: string, b: string, c: char)
    ensures Occurrences(a + b, c) == Occurrences(a, c) + Occurrences(b, c)
    decreases |a|
  {
    if a == "" {
      assert a + b == b;
    } else {
      assert (a + b)[1..] == a[1..] + b;
      OccurrencesConcat(a[1..], b, c);
    }
  }

  lemma {:induction false} OccursIff(s: string, c: char)
    ensures Occurrences(s, c) == 0 <==> c !in s
  {
    if s != "" { OccursIff(s[1..], c); }
  }

  // ----- type names -----

  function ToStr(t: VarType): string {
    match t
    case String => "string"
    case Int => "int"
    case Float => "float"
    case Bool => "bool"
    case Byte => "byte"
    case Vec2 => "vec2"
    case Vec3 => "vec3"
    case List => "list"
    case Grid => "grid"
    case Map => "map"
    case StringList => "list_str"
    case IntList => "list_int"
    case FloatList => "list_float"
    case BoolList => "list_bool"
    case ByteList => "list_byte"
    case Vec2List => "list_vec2"
    case Vec3List => "list_vec3"
    case StringGrid => "grid_str"
    case IntGrid => "grid_int"
    case FloatGrid => "grid_float"
    case BoolGrid => "grid_bool"
    case ByteGrid => "grid_byte"
    case Vec2Grid => "grid_vec2"
    case Vec3Grid => "grid_vec3"
  }

  function FromStr(s: string): Result<VarType, ParseError> {
    if s == "string" || s == "str" then Success(String)
    else if s == "int" then Success(Int)
    else if s == "float" then Success(Float)
    else if s == "bool" then Success(Bool)
    else if s == "byte" then Success(Byte)
    else if s == "vec2" then Success(Vec2)
    else if s == "vec3" then Success(Vec3)
    else if s == "map" then Success(Map)
    else
      var split := Split(s, '_');
      if |split| != 2 then Failure(Unimplemented)
      else if split[0] == "list" then ListOf(split[1])
      else if split[0] == "grid" then GridOf(split[1])
      else Failure(Unimplemented)
  }

  function ListOf(item: string): Result<VarType, ParseError> {
    if item == "string" || item == "str" then Success(StringList)
    else if item == "int" then Success(IntList)
    else if item == "float" then Success(FloatList)
    else if item == "bool" then Success(BoolList)
    else if item == "byte" then Success(ByteList)
    else if item == "vec2" then Success(Vec2List)
    else if item == "vec3" then Success(Vec3List)
    else Failure(Unimplemented)
  }

  function GridOf(item: string): Result<VarType, ParseError> {
    if item == "string" then Success(StringGrid)
    else if item == "int" then Success(IntGrid)
    else if item == "float" then Success(FloatGrid)
    else if item == "bool" then Success(BoolGrid)
    else if item == "byte" then Success(ByteGrid)
    else if item == "vec2" then Success(Vec2Grid)
    else if item == "vec3" then Success(Vec3Grid)
    else Failure(Unimplemented)
  }

  predicate Readable(t: VarType) {
    t != StringGrid && t != List && t != Grid
  }

  /** A name with an underscore is read by its two halves. */
  lemma CompoundName(kind: string, item: string)
    requires '_' !in kind && '_' !in item
    ensures FromStr(kind + "_" + item)
         == if kind == "list" then ListOf(item) else if kind == "grid" then GridOf(item) else Failure(Unimplemented)
  {
    var s := kind + "_" + item;
    SplitJoin([kind, item], '_');
    assert Join([kind, item], '_') == s;
    assert s[|kind|] == '_' && '_' in s;
    PlainNames();
  }

  lemma PlainNames()
    ensures '_' !in "string" && '_' !in "str" && '_' !in "int" && '_' !in "float" && '_' !in "bool"
         && '_' !in "byte" && '_' !in "vec2" && '_' !in "vec3" && '_' !in "map"
         && '_' !in "list" && '_' !in "grid"
  {
  }

  lemma KindAlone()
    ensures FromStr("list").Failure? && FromStr("grid").Failure?
  {
    hide Split;
    PlainNames();
    SplitJoin(["list"], '_');
    SplitJoin(["grid"], '_');
  }

  lemma ListNameReadBack(t: VarType)
    requires t.StringList? || t.IntList? || t.FloatList? || t.BoolList? || t.ByteList? || t.Vec2List? || t.Vec3List?
    ensures FromStr(ToStr(t)) == Success(t)
  {
    hide FromStr, Split;
    PlainNames();
    var item := ToStr(t)[5..];
    assert ToStr(t) == "list" + "_" + item;
    CompoundName("list", item);
  }

  lemma GridNameReadBack(t: VarType)
    requires t.StringGrid? || t.IntGrid? || t.FloatGrid? || t.BoolGrid? || t.ByteGrid? || t.Vec2Grid? || t.Vec3Grid?
    ensures FromStr(ToStr(t)) == Success(t) <==> !t.StringGrid?
  {
    hide FromStr, Split;
    PlainNames();
    var item := ToStr(t)[5..];
    assert ToStr(t) == "grid" + "_" + item;
    CompoundName("grid", item);
  }

  predicate Compound(t: VarType) {
    || t.StringList? || t.IntList? || t.FloatList? || t.BoolList? || t.ByteList? || t.Vec2List? || t.Vec3List?
    || t.StringGrid? || t.IntGrid? || t.FloatGrid? || t.BoolGrid? || t.ByteGrid? || t.Vec2Grid? || t.Vec3Grid?
  }

  lemma PlainNameReadBack(t: VarType)
    requires !Compound(t) && !t.List? && !t.Grid?
    ensures FromStr(ToStr(t)) == Success(t)
  {
    hide Split;
  }

  /** A printed type name is read back, for all types except three. */
  lemma TypeNameReadBackIff(t: VarType)
    ensures FromStr(ToStr(t)) == Success(t) <==> Readable(t)
  {
    hide FromStr, Split;
    if t.StringList? || t.IntList? || t.FloatList? || t.BoolList? || t.ByteList? || t.Vec2List? || t.Vec3List? {
      ListNameReadBack(t);
    } else if t.StringGrid? || t.IntGrid? || t.FloatGrid? || t.BoolGrid? || t.ByteGrid? || t.Vec2Grid? || t.Vec3Grid? {
      GridNameReadBack(t);
    } else if t.List? || t.Grid? {
      KindAlone();
    } else {
      PlainNameReadBack(t);
    }
  }

  lemma {:induction false} JoinSplit(s: string, c: char)
    ensures Join(Split(s, c), c) == s
  {
    if s != "" {
      JoinSplit(s[1..], c);
      var rest := Split(s[1..], c);
      if s[0] == c {
        assert ([""] + rest)[1..] == rest;
        assert "" + [c] + Join(rest, c) == [c] + s[1..] == s;
      } else {
        var first := [s[0]] + rest[0];
        assert ([first] + rest[1..])[1..] == rest[1..];
        assert [s[0]] + s[1..] == s;
        if |rest| > 1 {
          assert first + [c] + Join(rest[1..], c) == [s[0]] + (rest[0] + [c] + Join(rest[1..], c));
        }
      }
    }
  }

  /** The second names that some types go by when they are read. */
  function Alias(t: VarType): Option<string> {
    match t
    case String => Some("str")
    case StringList => Some("list_string")
    case StringGrid => Some("grid_string")
    case _ => None
  }

  lemma ListOfMeans(item: string, t: VarType)
    ensures ListOf(item) == Success(t)
       <==> (t.StringList? && (item == "str" || item == "string")) || (t.IntList? && item == "int")
            || (t.FloatList? && item == "float") || (t.BoolList? && item == "bool") || (t.ByteList? && item == "byte")
            || (t.Vec2List? && item == "vec2") || (t.Vec3List? && item == "vec3")
    ensures GridOf(item) == Success(t)
       <==> (t.StringGrid? && item == "string") || (t.IntGrid? && item == "int")
            || (t.FloatGrid? && item == "float") || (t.BoolGrid? && item == "bool") || (t.ByteGrid? && item == "byte")
            || (t.Vec2Grid? && item == "vec2") || (t.Vec3Grid? && item == "vec3")
  {
  }

  /** A text is read as a type if and only if it is the name the type prints, unless that is not read
      back, or its alias. */
  lemma TypeIsReadIff(s: string, t: VarType)
    ensures FromStr(s) == Success(t) <==> (s == ToStr(t) && Readable(t)) || Alias(t) == Some(s)
  {
    hide Split;
    if s == ToStr(t) { TypeNameReadBackIff(t); }
    if Alias(t) == Some(s) { AliasIsRead(t); }
    if FromStr(s) == Success(t) { ReadIsNamed(s, t); }
  }

  lemma AliasIsRead(t: VarType)
    requires Alias(t).Some?
    ensures FromStr(Alias(t).value) == Success(t)
  {
    hide FromStr, Split;
    PlainNames();
    if t.StringList? {
      assert "list" + "_" + "string" == "list_string";
      CompoundName("list", "string");
    } else if t.StringGrid? {
      assert "grid" + "_" + "string" == "grid_string";
      CompoundName("grid", "string");
    } else {
      StrIsRead();
    }
  }

  lemma StrIsRead()
    ensures FromStr("str") == Success(String)
  {
    hide Split;
  }

  lemma ReadIsNamed(s: string, t: VarType)
    requires FromStr(s) == Success(t)
    ensures (s == ToStr(t) && Readable(t)) || Alias(t) == Some(s)
  {
    var split := Split(s, '_');
    JoinSplit(s, '_');
    hide Split, Join, ListOf, GridOf, ToStr;
    if IsPlain(s) {
      PlainIsNamed(s, t);
    } else {
      TwoHalves(s, split);
      if split[0] == "list" { ListHalves(split[1], t); } else { GridHalves(split[1], t); }
    }
  }

  /** Read without being split. */
  predicate IsPlain(s: string) {
    s in ["string", "str", "int", "float", "bool", "byte", "vec2", "vec3", "map"]
  }

  lemma PlainIsNamed(s: string, t: VarType)
    requires IsPlain(s) && FromStr(s) == Success(t)
    ensures (s == ToStr(t) && Readable(t)) || Alias(t) == Some(s)
  {
    hide Split;
  }

  lemma TwoHalves(s: string, split: seq<string>)
    requires |split| == 2 && Join(split, '_') == s
    ensures s == split[0] + "_" + split[1]
  {
    assert split[1..] == [split[1]];
  }

  lemma ListHalves(item: string, t: VarType)
    requires ListOf(item) == Success(t)
    ensures var s := "list" + "_" + item; (s == ToStr(t) && Readable(t)) || Alias(t) == Some(s)
  {
    ListOfMeans(item, t);
    hide ListOf, GridOf;
    match t
    case StringList =>
      assert "list" + "_" + "str" == "list_str";
      assert "list" + "_" + "string" == "list_string";
    case IntList =>
      assert "list" + "_" + "int" == "list_int";
    case FloatList =>
      assert "list" + "_" + "float" == "list_float";
    case BoolList =>
      assert "list" + "_" + "bool" == "list_bool";
    case ByteList =>
      assert "list" + "_" + "byte" == "list_byte";
    case Vec2List =>
      assert "list" + "_" + "vec2" == "list_vec2";
    case Vec3List =>
      assert "list" + "_" + "vec3" == "list_vec3";
    case _ =>
  }

  lemma GridHalves(item: string, t: VarType)
    requires GridOf(item) == Success(t)
    ensures var s := "grid" + "_" + item; (s == ToStr(t) && Readable(t)) || Alias(t) == Some(s)
  {
    ListOfMeans(item, t);
    hide ListOf, GridOf;
    match t
    case StringGrid =>
      assert "grid" + "_" + "string" == "grid_string";
    case IntGrid =>
      assert "grid" + "_" + "int" == "grid_int";
    case FloatGrid =>
      assert "grid" + "_" + "float" == "grid_float";
    case BoolGrid =>
      assert "grid" + "_" + "bool" == "grid_bool";
    case ByteGrid =>
      assert "grid" + "_" + "byte" == "grid_byte";
    case Vec2Grid =>
      assert "grid" + "_" + "vec2" == "grid_vec2";
    case Vec3Grid =>
      assert "grid" + "_" + "vec3" == "grid_vec3";
    case _ =>
  }

  lemma TypeNameHasNoDot(t: VarType)
    ensures '.' !in ToStr(t)
  {
  }

  // ----- addresses -----

  datatype ShortLocalAddress = ShortLocal(comp: Option<string>, varType: VarType, varName: string)

  datatype LocalAddress = Local(comp: string, varType: VarType, varName: string)

  datatype Address = Address(entity: string, comp: string, varType: VarType, varName: string)

  function PrintShort(a: ShortLocalAddress): string {
    match a.comp
    case Some(c) => c + "." + ToStr(a.varType) + "." + a.varName
    case None => ToStr(a.varType) + "." + a.varName
  }

  function ParseShort(s: string): Result<ShortLocalAddress, ParseError> {
    var split := Split(s, '.');
    if |split| == 2 then
      (match FromStr(split[0])
       case Success(t) => Success(ShortLocal(None, t, split[1]))
       case Failure(e) => Failure(e))
    else if |split| == 3 then
      (match FromStr(split[1])
       case Success(t) => Success(ShortLocal(Some(split[0]), t, split[2]))
       case Failure(e) => Failure(e))
    else Failure(Invalid)
  }

  function PrintLocal(a: LocalAddress): string {
    a.comp + "." + ToStr(a.varType) + "." + a.varName
  }

  function ParseLocal(s: string): Result<LocalAddress, ParseError> {
    var split := Split(s, '.');
    if |split| != 3 then Failure(Invalid)
    else
      match FromStr(split[1])
      case Success(t) => Success(Local(split[0], t, split[2]))
      case Failure(e) => Failure(e)
  }

  function Print(a: Address): string {
    a.entity + "." + a.comp + "." + ToStr(a.varType) + "." + a.varName
  }

  function Parse(s: string): Result<Address, ParseError> {
    var split := Split(s, '.');
    if |split| != 4 then Failure(Invalid)
    else
      match FromStr(split[2])
      case Success(t) => Success(Address(split[0], split[1], t, split[3]))
      case Failure(e) => Failure(e)
  }

  lemma {:induction false} JoinOccurrences(parts: seq<string>, c: char)
    requires |parts| > 0
    ensures Occurrences(Join(parts, c), c) >= |parts| - 1
    ensures Occurrences(Join(parts, c), c) == |parts| - 1 <==> forall p :: p in parts ==> c !in p
    decreases |parts|
  {
    OccursIff(parts[0], c);
    if |parts| > 1 {
      var rest := Join(parts[1..], c);
      JoinOccurrences(parts[1..], c);
      OccurrencesConcat(parts[0] + [c], rest, c);
      OccurrencesConcat(parts[0], [c], c);
      assert [c][1..] == "";
      assert parts == [parts[0]] + parts[1..];
    }
  }

  /** The pieces of a printed address: as many as its fields, or more if a name holds the separator. */
  lemma Pieces(parts: seq<string>, c: char)
    requires |parts| > 0
    ensures |Split(Join(parts, c), c)| == |parts| <==> forall p :: p in parts ==> c !in p
    ensures |Split(Join(parts, c), c)| >= |parts|
    ensures (forall p :: p in parts ==> c !in p) ==> Split(Join(parts, c), c) == parts
  {
    SplitCount(Join(parts, c), c);
    JoinOccurrences(parts, c);
    if forall p :: p in parts ==> c !in p { SplitJoin(parts, c); }
  }

  lemma Unjoin2(a: string, b: string)
    ensures a + "." + b == Join([a, b], '.')
  {
    assert [a, b][1..] == [b];
  }

  lemma Unjoin3(a: string, b: string, c: string)
    ensures a + "." + b + "." + c == Join([a, b, c], '.')
  {
    Unjoin2(b, c);
    assert [a, b, c][1..] == [b, c];
    assert a + "." + b + "." + c == a + "." + (b + "." + c);
  }

  /** An address is read back from its printed form if and only if no name holds the separator and
      the type is readable. */
  lemma AddressReadBackIff(a: Address)
    ensures Parse(Print(a)) == Success(a)
       <==> '.' !in a.entity && '.' !in a.comp && '.' !in a.varName && Readable(a.varType)
  {
    hide ToStr, FromStr, Readable;
    var parts := [a.entity, a.comp, ToStr(a.varType), a.varName];
    Unjoin3(a.comp, ToStr(a.varType), a.varName);
    assert parts[1..] == [a.comp, ToStr(a.varType), a.varName];
    assert Print(a) == a.entity + "." + (a.comp + "." + ToStr(a.varType) + "." + a.varName);
    Pieces(parts, '.');
    TypeNameReadBackIff(a.varType);
    TypeNameHasNoDot(a.varType);
    assert parts[0] in parts && parts[1] in parts && parts[2] in parts && parts[3] in parts;
  }

  /** The text writes the address, with `ty` for its type. */
  ghost predicate Writes(s: string, a: Address, ty: string) {
    && s == a.entity + "." + a.comp + "." + ty + "." + a.varName
    && '.' !in a.entity && '.' !in a.comp && '.' !in ty && '.' !in a.varName
    && FromStr(ty) == Success(a.varType)
  }

  /** A text is read as an address if and only if it writes it, with any name its type is read by. */
  lemma AddressIsReadIff(s: string, a: Address)
    ensures Parse(s) == Success(a) <==> exists ty :: Writes(s, a, ty)
  {
    hide FromStr;
    if Parse(s) == Success(a) {
      var parts := Split(s, '.');
      JoinSplit(s, '.');
      Pieces(parts, '.');
      assert parts == [parts[0], parts[1], parts[2], parts[3]];
      assert parts[0] in parts && parts[1] in parts && parts[2] in parts && parts[3] in parts;
      JoinFour(parts[0], parts[1], parts[2], parts[3]);
      assert Writes(s, a, parts[2]);
    }
    if ty :| Writes(s, a, ty) {
      var parts := [a.entity, a.comp, ty, a.varName];
      JoinFour(a.entity, a.comp, ty, a.varName);
      SplitJoin(parts, '.');
    }
  }

  lemma JoinFour(a: string, b: string, c: string, d: string)
    ensures Join([a, b, c, d], '.') == a + "." + b + "." + c + "." + d
  {
    Unjoin3(b, c, d);
    assert [a, b, c, d][1..] == [b, c, d];
    assert a + "." + (b + "." + c + "." + d) == a + "." + b + "." + c + "." + d;
  }

  lemma LocalReadBackIff(a: LocalAddress)
    ensures ParseLocal(PrintLocal(a)) == Success(a)
       <==> '.' !in a.comp && '.' !in a.varName && Readable(a.varType)
  {
    hide ToStr, FromStr, Readable;
    var parts := [a.comp, ToStr(a.varType), a.varName];
    Unjoin3(a.comp, ToStr(a.varType), a.varName);
    Pieces(parts, '.');
    TypeNameReadBackIff(a.varType);
    TypeNameHasNoDot(a.varType);
    assert parts[0] in parts && parts[1] in parts && parts[2] in parts;
  }

  lemma ShortReadBackIff(a: ShortLocalAddress)
    ensures ParseShort(PrintShort(a)) == Success(a)
       <==> (a.comp.Some? ==> '.' !in a.comp.value) && '.' !in a.varName && Readable(a.varType)
  {
    hide ToStr, FromStr, Readable;
    TypeNameReadBackIff(a.varType);
    TypeNameHasNoDot(a.varType);
    match a.comp
    case Some(c) =>
      var parts := [c, ToStr(a.varType), a.varName];
      Unjoin3(c, ToStr(a.varType), a.varName);
      Pieces(parts, '.');
      assert parts[0] in parts && parts[1] in parts && parts[2] in parts;
    case None =>
      var parts := [ToStr(a.varType), a.varName];
      Unjoin2(ToStr(a.varType), a.varName);
      Pieces(parts, '.');
      assert parts[0] in parts && parts[1] in parts;
  }

  lemma UnreadableNames(t: VarType)
    ensures !t.List? ==> ToStr(t) != "list"
    ensures !t.Grid? ==> ToStr(t) != "grid"
    ensures !t.StringGrid? ==> ToStr(t) != "grid_str"
  {
    var s := ToStr(t);
    assert |"list"| == 4 && |"grid"| == 4 && |"grid_str"| == 8;
    assert "list"[0] == 'l' && "grid"[0] == 'g' && "grid_str"[0] == 'g' && "grid_str"[5] == 's';
  }

  /** No two types have the same name, readable or not. */
  lemma TypeNamesDiffer(t: VarType, u: VarType)
    ensures ToStr(t) == ToStr(u) <==> t == u
  {
    TypeNameReadBackIff(t);
    TypeNameReadBackIff(u);
    UnreadableNames(t);
    UnreadableNames(u);
    hide FromStr;
  }

  /** No two addresses print alike if no name holds the separator, whatever their types. */
  lemma PrintInjective(a: Address, b: Address)
    requires '.' !in a.entity && '.' !in a.comp && '.' !in a.varName
    requires '.' !in b.entity && '.' !in b.comp && '.' !in b.varName
    ensures Print(a) == Print(b) <==> a == b
  {
    PrintedParts(a);
    PrintedParts(b);
    hide Split, Print, ToStr;
    TypeNamesDiffer(a.varType, b.varType);
  }

  lemma PrintedParts(a: Address)
    requires '.' !in a.entity && '.' !in a.comp && '.' !in a.varName
    ensures Split(Print(a), '.') == [a.entity, a.comp, ToStr(a.varType), a.varName]
  {
    var parts := [a.entity, a.comp, ToStr(a.varType), a.varName];
    TypeNameHasNoDot(a.varType);
    hide Split, ToStr;
    Unjoin3(a.comp, ToStr(a.varType), a.varName);
    assert parts[1..] == [a.comp, ToStr(a.varType), a.varName];
    assert Print(a) == a.entity + "." + (a.comp + "." + ToStr(a.varType) + "." + a.varName);
    SplitJoin(parts, '.');
  }

  lemma LocalPrintInjective(a: LocalAddress, b: LocalAddress)
    requires '.' !in a.comp && '.' !in a.varName && '.' !in b.comp && '.' !in b.varName
    ensures PrintLocal(a) == PrintLocal(b) <==> a == b
  {
    LocalParts(a);
    LocalParts(b);
    hide Split, PrintLocal, ToStr;
    TypeNamesDiffer(a.varType, b.varType);
  }

  lemma LocalParts(a: LocalAddress)
    requires '.' !in a.comp && '.' !in a.varName
    ensures Split(PrintLocal(a), '.') == [a.comp, ToStr(a.varType), a.varName]
  {
    TypeNameHasNoDot(a.varType);
    hide Split, ToStr;
    Unjoin3(a.comp, ToStr(a.varType), a.varName);
    SplitJoin([a.comp, ToStr(a.varType), a.varName], '.');
  }

  /** Two-part and three-part forms never print alike either. */
  lemma ShortPrintInjective(a: ShortLocalAddress, b: ShortLocalAddress)
    requires (a.comp.Some? ==> '.' !in a.comp.value) && '.' !in a.varName
    requires (b.comp.Some? ==> '.' !in b.comp.value) && '.' !in b.varName
    ensures PrintShort(a) == PrintShort(b) <==> a == b
  {
    ShortParts(a);
    ShortParts(b);
    hide Split, PrintShort, ToStr;
    TypeNamesDiffer(a.varType, b.varType);
  }

  lemma ShortParts(a: ShortLocalAddress)
    requires (a.comp.Some? ==> '.' !in a.comp.value) && '.' !in a.varName
    ensures a.comp.Some? ==> Split(PrintShort(a), '.') == [a.comp.value, ToStr(a.varType), a.varName]
    ensures a.comp.None? ==> Split(PrintShort(a), '.') == [ToStr(a.varType), a.varName]
  {
    TypeNameHasNoDot(a.varType);
    hide Split, ToStr;
    match a.comp
    case Some(c) =>
      Unjoin3(c, ToStr(a.varType), a.varName);
      SplitJoin([c, ToStr(a.varType), a.varName], '.');
    case None =>
      Unjoin2(ToStr(a.varType), a.varName);
      SplitJoin([ToStr(a.varType), a.varName], '.');
  }
}
