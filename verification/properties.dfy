/**
 What binding against the environment guarantees for each field, stated with
 the declarative decimal syntax of `Strconv` rather than with Atoi itself, and
 how bindings compose.
 */
module ConfigProperties {
  import opened Wrappers
  import opened Strconv
  import opened Locations
  import opened Config
  import Strings

  /** The fields of a struct after `Parse` has bound it against `env`. */
  function FieldsAfterParse(fs: seq<Field>, env: map<string, string>): seq<Field> {
    var r := Parse(PointerTo(Struct(fs)), env);
    if r.dest.PointerTo? && r.dest.elem.Struct? then r.dest.elem.fields else fs
  }

  /** Binding a struct succeeds whatever the environment holds, keeps the
      number of fields, and resolves each field on its own. */
  lemma ParseStructSucceeds(fs: seq<Field>, env: map<string, string>)
    ensures Parse(PointerTo(Struct(fs)), env) == Outcome(PointerTo(Struct(FieldsAfterParse(fs, env))), None)
    ensures |FieldsAfterParse(fs, env)| == |fs|
    ensures forall i | 0 <= i < |fs| :: FieldsAfterParse(fs, env)[i] == ResolveField(fs[i], EnvConfig(env))
  {
  }

  /** A settable string field takes a non-empty environment value and ignores its default. */
  lemma StringSourceWins(fs: seq<Field>, env: map<string, string>, i: nat)
    requires i < |fs| && fs[i].settable && fs[i].value.Str?
    requires EnvValue(env, fs[i].name) != ""
    ensures FieldsAfterParse(fs, env)[i].value == Str(EnvValue(env, fs[i].name))
  {
  }

  /** A settable string field whose variable is unset or empty takes its
      `default` tag verbatim, which is "" when no tag is declared. */
  lemma StringDefaultFallback(fs: seq<Field>, env: map<string, string>, i: nat)
    requires i < |fs| && fs[i].settable && fs[i].value.Str?
    requires EnvValue(env, fs[i].name) == ""
    ensures FieldsAfterParse(fs, env)[i].value == Str(fs[i].defaultTag)
  {
  }

  /** How a settable int field resolves, in terms of the decimal syntax of the
      environment value and of the default. */
  lemma IntFieldResolution(f: Field, env: map<string, string>)
    requires f.settable && f.value.Int?
    ensures var v := EnvValue(env, f.name);
      WellFormed(v) && InInt64(DecimalValue(v)) ==>
        ResolveField(f, EnvConfig(env)).value == Int(DecimalValue(v))
    ensures var v := EnvValue(env, f.name);
      !(WellFormed(v) && InInt64(DecimalValue(v))) ==>
        ResolveField(f, EnvConfig(env)).value == Int(AtoiSpec(f.defaultTag).n)
  {
    var loc := EnvConfig(env);
    var v := EnvValue(env, f.name);
    assert loc.GetString(f.name) == v;
    AtoiAcceptsExactlyWellFormed(v);
  }

  /** A settable int field takes a valid 64-bit literal from the environment,
      whatever its default says. */
  lemma IntSourceWins(fs: seq<Field>, env: map<string, string>, i: nat)
    requires i < |fs| && fs[i].settable && fs[i].value.Int?
    requires WellFormed(EnvValue(env, fs[i].name)) && InInt64(DecimalValue(EnvValue(env, fs[i].name)))
    ensures FieldsAfterParse(fs, env)[i].value == Int(DecimalValue(EnvValue(env, fs[i].name)))
  {
    ParseStructSucceeds(fs, env);
    IntFieldResolution(fs[i], env);
  }

  /** A settable int field whose variable is unset, malformed or out of range
      takes the value of a valid default. */
  lemma IntDefaultFallback(fs: seq<Field>, env: map<string, string>, i: nat)
    requires i < |fs| && fs[i].settable && fs[i].value.Int?
    requires !(WellFormed(EnvValue(env, fs[i].name)) && InInt64(DecimalValue(EnvValue(env, fs[i].name))))
    requires WellFormed(fs[i].defaultTag) && InInt64(DecimalValue(fs[i].defaultTag))
    ensures FieldsAfterParse(fs, env)[i].value == Int(DecimalValue(fs[i].defaultTag))
  {
    ParseStructSucceeds(fs, env);
    IntFieldResolution(fs[i], env);
  }

  /** When neither the environment nor the default is a literal (a missing tag
      included), the int field becomes 0 and no error is reported. */
  lemma IntZeroFallback(fs: seq<Field>, env: map<string, string>, i: nat)
    requires i < |fs| && fs[i].settable && fs[i].value.Int?
    requires !(WellFormed(EnvValue(env, fs[i].name)) && InInt64(DecimalValue(EnvValue(env, fs[i].name))))
    requires !WellFormed(fs[i].defaultTag) && !LeadingRunOverflows(fs[i].defaultTag)
    ensures FieldsAfterParse(fs, env)[i].value == Int(0)
    ensures Parse(PointerTo(Struct(fs)), env).err == None
  {
    ParseStructSucceeds(fs, env);
    IntFieldResolution(fs[i], env);
  }

  /** A default literal beyond 64 bits is not replaced by 0: the bound Atoi
      clamps it to, returned alongside its range error, is kept. */
  lemma IntOverflowingDefault(fs: seq<Field>, env: map<string, string>, i: nat)
    requires i < |fs| && fs[i].settable && fs[i].value.Int?
    requires !(WellFormed(EnvValue(env, fs[i].name)) && InInt64(DecimalValue(EnvValue(env, fs[i].name))))
    requires WellFormed(fs[i].defaultTag) && !InInt64(DecimalValue(fs[i].defaultTag))
    ensures FieldsAfterParse(fs, env)[i].value == Int(Saturate(DecimalValue(fs[i].defaultTag) < 0))
  {
    ParseStructSucceeds(fs, env);
    IntFieldResolution(fs[i], env);
  }

  /** Unsettable fields and fields of any other kind keep their entry value. */
  lemma UntouchedFields(fs: seq<Field>, loc: ConfigLocation, i: nat)
    requires i < |fs| && (!fs[i].settable || fs[i].value.Other?)
    ensures var r := ParseFromLocation(PointerTo(Struct(fs)), loc);
      r.err == None && r.dest.elem.fields[i] == fs[i]
  {
  }

  /** Fields are bound independently: binding a concatenation is concatenating bindings. */
  lemma {:induction false} BindFieldsAppend(a: seq<Field>, b: seq<Field>, loc: ConfigLocation)
    ensures BindFields(a + b, loc) == BindFields(a, loc) + BindFields(b, loc)
  {
    var l := BindFields(a + b, loc);
    var r := BindFields(a, loc) + BindFields(b, loc);
    assert |l| == |r|;
    forall i | 0 <= i < |l|
      ensures l[i] == r[i]
    {
      if i < |a| {
        assert (a + b)[i] == a[i];
      } else {
        assert (a + b)[i] == b[i - |a|];
      }
    }
  }

  /** A settable string or int field's outcome does not depend on its entry
      value: any other value of the same kind resolves the same way. */
  lemma ResolveIgnoresEntryValue(f: Field, v: Value, loc: ConfigLocation)
    requires f.settable && !f.value.Other?
    requires v.Str? == f.value.Str? && v.Int? == f.value.Int?
    ensures ResolveField(f.(value := v), loc) == ResolveField(f, loc)
  {
  }

  /** Resolving a field a second time against the same source changes nothing. */
  lemma ResolveFieldIdempotent(f: Field, loc: ConfigLocation)
    ensures ResolveField(ResolveField(f, loc), loc) == ResolveField(f, loc)
  {
    if f.settable && !f.value.Other? {
      ResolveIgnoresEntryValue(f, ResolveField(f, loc).value, loc);
    }
  }

  /** Binding twice against the same source leaves the destination as binding once. */
  lemma {:induction false} ParseFromLocationIdempotent(dest: Destination, loc: ConfigLocation)
    ensures var once := ParseFromLocation(dest, loc).dest;
      ParseFromLocation(once, loc).dest == once
  {
    if dest.PointerTo? && dest.elem.Struct? {
      var once := BindFields(dest.elem.fields, loc);
      var twice := BindFields(once, loc);
      forall i | 0 <= i < |once|
        ensures twice[i] == once[i]
      {
        ResolveFieldIdempotent(dest.elem.fields[i], loc);
      }
    }
  }

  /** A field whose name differs only in letter case reads the same variable. */
  lemma FieldNamesAreCaseInsensitive(f: Field, g: Field, env: map<string, string>)
    requires Strings.ToUpper(f.name) == Strings.ToUpper(g.name)
    requires f.settable == g.settable && f.defaultTag == g.defaultTag && f.value == g.value
    ensures ResolveField(f, EnvConfig(env)).value == ResolveField(g, EnvConfig(env)).value
  {
    assert EnvConfig(env).GetString(f.name) == EnvConfig(env).GetString(g.name);
  }

}
