/**
 The binder of config.go: `ParseFromLocation` walks the fields of the struct a
 pointer designates and sets each settable string or int field from a
 configuration source, falling back to the field's `default` tag; `Parse` does
 the same with the environment as source.

 Reflection is replaced by an explicit table: a struct is a sequence of field
 descriptors, each carrying its name, whether reflection may set it, its raw
 `default` tag (`""` when none is declared), and its current value, whose
 constructor is the field's kind. Binding is a pure function returning the
 destination after the call together with the returned error.
 */
module Config {
  import opened Wrappers
  import opened Strconv
  import opened Locations

  /** A field's current value; the constructor is the field's reflect kind.
      `Other` stands for every kind except exactly `string` and `int`
      (int64, uint, bool, float64, ...), whose contents the binder never reads. */
  datatype Value = Str(s: string) | Int(i: int64) | Other(repr: string)

  datatype Field = Field(name: string, settable: bool, defaultTag: string, value: Value)

  /** What the pointer passed to the binder points at. */
  datatype Pointee = Struct(fields: seq<Field>) | NonStruct

  /** The `config interface{}` argument. `NonPointer` is anything `Elem` cannot
      be taken of (a struct or scalar passed by value, or a nil interface);
      `NilPointer` is a typed nil pointer, whose `Elem` has no kind. */
  datatype Destination = NonPointer | NilPointer | PointerTo(elem: Pointee)

  /** `ErrInvalidConfigVariable` is the sentinel; `ErrReflectValue` is the
      `*reflect.ValueError` that `Elem` panics with, recovered and returned. */
  datatype Error = ErrInvalidConfigVariable | ErrReflectValue

  /** The destination after the call and the returned error (`None` is nil). */
  datatype Outcome = Outcome(dest: Destination, err: Option<Error>)

  /** One iteration of the field loop (config.go lines 60-92): skip an unsettable
      field, set a string field from GetString or else its default, set an int
      field from GetInt or else Atoi of its default (0 on a syntax error), and
      leave any other kind alone. */
  function ResolveField(f: Field, loc: ConfigLocation): (g: Field)
    ensures g.name == f.name && g.settable == f.settable && g.defaultTag == f.defaultTag
    ensures g.value.Str? == f.value.Str? && g.value.Int? == f.value.Int?
    ensures !f.settable || f.value.Other? ==> g == f
    ensures f.settable && f.value.Str? && loc.GetString(f.name) != "" ==>
      g.value == Str(loc.GetString(f.name))
    ensures f.settable && f.value.Str? && loc.GetString(f.name) == "" ==>
      g.value == Str(f.defaultTag)
    ensures f.settable && f.value.Int? && loc.GetInt(f.name).err.None? ==>
      g.value == Int(loc.GetInt(f.name).n)
    ensures f.settable && f.value.Int? && loc.GetInt(f.name).err.Some? ==>
      g.value == Int(Atoi(f.defaultTag).n)
  {
    if !f.settable then f
    else
      match f.value
      case Str(_) =>
        var configValue := loc.GetString(f.name);
        f.(value := Str(if configValue == "" then f.defaultTag else configValue))
      case Int(_) =>
        var r := loc.GetInt(f.name);
        f.(value := Int(if r.err.Some? then Atoi(f.defaultTag).n else r.n))
      case Other(_) => f
  }

  /** The field loop (config.go lines 59-94): every field is resolved on its own,
      in declaration order, and none is added, dropped or reordered. */
  function BindFields(fs: seq<Field>, loc: ConfigLocation): (gs: seq<Field>)
    ensures |gs| == |fs|
    ensures forall i | 0 <= i < |fs| :: gs[i] == ResolveField(fs[i], loc)
  {
    if |fs| == 0 then [] else [ResolveField(fs[0], loc)] + BindFields(fs[1..], loc)
  }

  /** `ParseFromLocation`: a pointer to a struct is bound and nil is returned; a
      typed nil pointer or a pointer to anything else yields the sentinel; an
      argument that is not a pointer makes reflection fail with its own error.
      On every error the destination is left as it was. */
  function ParseFromLocation(dest: Destination, loc: ConfigLocation): (r: Outcome)
    ensures r.err.None? <==> dest.PointerTo? && dest.elem.Struct?
    ensures r.err == Some(ErrInvalidConfigVariable) <==>
      dest.NilPointer? || (dest.PointerTo? && dest.elem.NonStruct?)
    ensures r.err == Some(ErrReflectValue) <==> dest.NonPointer?
    ensures r.err.Some? ==> r.dest == dest
    ensures r.err.None? ==>
      r.dest.PointerTo? && r.dest.elem.Struct? &&
      |r.dest.elem.fields| == |dest.elem.fields| &&
      forall i | 0 <= i < |dest.elem.fields| ::
        r.dest.elem.fields[i] == ResolveField(dest.elem.fields[i], loc)
  {
    match dest
    case NonPointer => Outcome(dest, Some(ErrReflectValue))
    case NilPointer => Outcome(dest, Some(ErrInvalidConfigVariable))
    case PointerTo(NonStruct) => Outcome(dest, Some(ErrInvalidConfigVariable))
    case PointerTo(Struct(fs)) => Outcome(PointerTo(Struct(BindFields(fs, loc))), None)
  }

  /** `Parse`: binding against the process environment, whose variables are
      named by the upper-cased field names. */
  function Parse(dest: Destination, env: map<string, string>): (r: Outcome)
    ensures r == ParseFromLocation(dest, EnvConfig(env))
    ensures r.err.None? <==> dest.PointerTo? && dest.elem.Struct?
    ensures r.err.Some? ==> r.dest == dest
  {
    ParseFromLocation(dest, EnvConfig(env))
  }

}
