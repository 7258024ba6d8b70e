/**
 Concrete bindings of a two-field schema `{Host string default:"localhost";
 Port int default:"8080"}` and of a schema with a float field.
 */
module ConfigScenarios {
  import opened Wrappers
  import opened Strconv
  import opened Locations
  import opened Config
  import Strings

  const Schema: seq<Field> := [
    Field("Host", true, "localhost", Str("")),
    Field("Port", true, "8080", Int(0))
  ]

  function Bound(host: string, port: int64): Destination {
    PointerTo(Struct([
      Field("Host", true, "localhost", Str(host)),
      Field("Port", true, "8080", Int(port))
    ]))
  }

  lemma HostPortKeys()
    ensures Strings.ToUpper("Host") == "HOST"
    ensures Strings.ToUpper("Port") == "PORT"
  {
  }

  /** The conversions the scenarios rely on. */
  lemma ScenarioConversions()
    ensures Atoi("8080") == IntResult(8080, None)
    ensures Atoi("9090") == IntResult(9090, None)
    ensures Atoi("notanumber").err.Some?
    ensures Atoi("").err.Some?
  {
  }

  /** Binding the schema when `HOST` is unset and `PORT` holds `port`. */
  lemma BindSchema(env: map<string, string>, port: string, expected: int64)
    requires "HOST" !in env
    requires "PORT" in env ==> env["PORT"] == port
    requires "PORT" !in env ==> port == ""
    requires Atoi(port) == IntResult(expected, None) || (Atoi(port).err.Some? && expected == 8080)
    ensures Parse(PointerTo(Struct(Schema)), env) == Outcome(Bound("localhost", expected), None)
  {
    HostPortKeys();
    ScenarioConversions();
    var loc := EnvConfig(env);
    assert loc.GetString("Host") == "";
    assert loc.GetInt("Port") == Atoi(port);
    var gs := BindFields(Schema, loc);
    assert gs[0] == Field("Host", true, "localhost", Str("localhost"));
    assert gs[1] == Field("Port", true, "8080", Int(expected));
    assert gs == [gs[0], gs[1]];
  }

  /** With no variables set, both fields take their defaults. */
  lemma NoVariablesSet()
    ensures Parse(PointerTo(Struct(Schema)), map[]) == Outcome(Bound("localhost", 8080), None)
  {
    ScenarioConversions();
    BindSchema(map[], "", 8080);
  }

  /** `PORT=9090` overrides the port's default. */
  lemma PortFromEnvironment()
    ensures Parse(PointerTo(Struct(Schema)), map["PORT" := "9090"]) == Outcome(Bound("localhost", 9090), None)
  {
    ScenarioConversions();
    BindSchema(map["PORT" := "9090"], "9090", 9090);
  }

  /** `PORT=notanumber` fails to convert, so the default 8080 is used and no error is returned. */
  lemma PortNotANumber()
    ensures Parse(PointerTo(Struct(Schema)), map["PORT" := "notanumber"]) == Outcome(Bound("localhost", 8080), None)
  {
    ScenarioConversions();
    BindSchema(map["PORT" := "notanumber"], "notanumber", 8080);
  }

  /** A lower-case variable name is not the one looked up. */
  lemma LowerCaseVariableIgnored()
    ensures Parse(PointerTo(Struct(Schema)), map["port" := "9090"]) == Outcome(Bound("localhost", 8080), None)
  {
    ScenarioConversions();
    BindSchema(map["port" := "9090"], "", 8080);
  }

  const Nines: string := "999999999999999999999"
  const NinesThenX: string := Nines + "x"

  lemma Pow10Twenty()
    ensures Pow10(20) == 100_000_000_000_000_000_000
  {
    assert Pow10(5) == 100_000;
    assert Pow10(10) == 10_000_000_000;
    assert Pow10(15) == 1_000_000_000_000_000;
  }

  /** Twenty-one nines already exceed 2^64-1 before the `x` is reached. */
  lemma NinesRunOverflows()
    ensures !WellFormed(NinesThenX) && LeadingRunOverflows(NinesThenX)
  {
    var s := NinesThenX;
    assert |Nines| == 21 && forall j | 0 <= j < 21 :: Nines[j] == '9';
    assert s[..21] == Nines;
    assert !IsDigit(s[21]);
    LeadingDigitsAt(s, 21);
    NoLeadingZeroBound(Nines);
    Pow10Twenty();
  }

  /** A digit run that overflows before a bad character is a range error,
      not a syntax error, so such a default clamps instead of giving 0. */
  lemma OverflowBeforeBadCharacter()
    ensures Atoi(NinesThenX) == IntResult(MaxInt64, Some(ErrRange))
  {
    NinesRunOverflows();
  }

  /** A float field is left at its zero value, and binding still succeeds. */
  lemma FloatFieldUntouched(env: map<string, string>)
    ensures var fs := [Field("Ratio", true, "", Other("0"))];
      Parse(PointerTo(Struct(fs)), env) == Outcome(PointerTo(Struct(fs)), None)
  {
  }

  /** Passing a map where a pointer to a struct is expected leaves it untouched
      and returns the sentinel; passing a struct by value is a reflection error. */
  lemma WrongShapes(env: map<string, string>)
    ensures Parse(PointerTo(NonStruct), env) == Outcome(PointerTo(NonStruct), Some(ErrInvalidConfigVariable))
    ensures Parse(NonPointer, env) == Outcome(NonPointer, Some(ErrReflectValue))
  {
  }

}
