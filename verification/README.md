# go-env-config binder, modelled in Dafny

This project models the configuration binder of `go-env-config` (package
`config`). `ParseFromLocation` takes a pointer to a struct and a configuration
source. For each field it can set, it reads a value by the field's name:

- A `string` field takes the source string. If that string is empty, the field takes its `default` tag.
- An `int` field takes the source integer. If that conversion fails, the field takes `strconv.Atoi` of its `default` tag, and the tag's conversion error is dropped. A tag with a syntax error gives 0. A tag whose value exceeds 64 bits gives the nearest 64-bit bound. So does a tag whose leading run of digits already exceeds 2^64-1 before a bad character, such as `999999999999999999999x`.
- Fields of any other kind are left alone. So are fields reflection cannot set.

A pointer to anything but a struct yields the sentinel `ErrInvalidConfigVariable` and changes nothing. `Parse` does the same binding with the process environment as the source. The environment source upper-cases the field name before it looks the variable up.

Reflection is replaced by an explicit table:

- A struct is a sequence of `Field` descriptors. Each has a name, a settable flag, the raw `default` tag (`""` when none is declared) and the current value.
- The constructor of the value (`Str`, `Int`, `Other`) is the field's kind.
- A configuration source is a pair of total functions, `GetString` and `GetInt`.
- The environment is a `map<string, string>`. An unset variable reads as `""`, as `os.Getenv` does.

Binding is a pure function. It returns the destination after the call and the error it returns.

`strconv.Atoi` is modelled as Go computes it on a 64-bit platform:

- Inputs of 1 to 18 bytes take a fast path.
- Longer or empty inputs take the `ParseInt`/`ParseUint` slow path, with its overflow checks.
- A syntax error yields 0. An overflow yields the nearest 64-bit bound together with a range error.

`Strconv.AtoiSpec` states this behaviour declaratively, in terms of an optional sign, decimal digits and their value. The contracts of `Atoi`, of its fast path and of `ParseInt` each prove agreement with it on every string. The binder's properties are then stated in terms of that declarative syntax.

Files:

- `wrappers.dfy`: `Option`.
- `strings.dfy`: ASCII `ToUpper`.
- `strconv.dfy`: `Atoi`, its declarative account, and the round trip with `Itoa`.
- `locations.dfy`: `ConfigLocation` and `EnvConfig`.
- `config.dfy`: the field resolution, the field loop, `ParseFromLocation` and `Parse`.
- `properties.dfy`: the per-field guarantees of `Parse`, plus idempotence and independence of fields.
- `scenarios.dfy`: concrete bindings.

An argument that is not a pointer, such as a struct or scalar passed by value or a nil interface, makes `reflect.Value.Elem` panic at config.go:50. The deferred `recover` returns that `*reflect.ValueError` as the error. So the model returns `ErrReflectValue` for it, not the sentinel `ErrInvalidConfigVariable`. A typed nil pointer does yield the sentinel, because its `Elem` is the zero value, whose kind is not `Struct`.

## Model

| member | source | states |
|---|---|---|
| Strings.ToUpper | config.go:25 | the lookup key keeps its length; every lower-case ASCII letter becomes its capital, every other character is kept, and no lower-case letter remains |
| Strings.ToUpperIdempotent | config.go:25 | upper-casing an already upper-cased key changes nothing |
| Strconv.LeadingDigitsAt | config.go:35 | the leading digit run that the scan reads ends exactly at the first non-digit |
| Strconv.AccumulateDigitsValue | config.go:35 | the fast path's digit loop succeeds exactly on all-digit input and then yields its decimal value |
| Strconv.ScanDigitsSpec | config.go:35 | the unsigned scan stops with a range error exactly when the leading digit run exceeds 2^64-1, and succeeds exactly on all-digit input, yielding its value |
| Strconv.ParseUint | config.go:35 | `ParseUint(s, 10, 64)` fails with a syntax error on an empty string. Otherwise it gives a range error exactly when the leading digit run exceeds 2^64-1, and succeeds exactly on all-digit input, with its value |
| Strconv.ParseInt | config.go:35 | Atoi's slow path agrees with the declarative account on every string, empty and signed strings included |
| Strconv.AtoiFast | config.go:35 | Atoi's fast path for 1 to 18 bytes agrees with the declarative account and never reports a range error |
| Strconv.Atoi | config.go:83 | the conversion applied to source values (line 35) and to `default` tags (line 83) agrees with its declarative account on every string. A well-formed literal gives its value, or the clamped bound with a range error. A run of digits that overflows before a bad character gives a range error. Anything else is a syntax error with value 0 |
| Strconv.FastPathAgreesWithParseInt | config.go:35 | on inputs of 1 to 18 bytes, the fast path returns exactly what ParseInt would |
| Strconv.AtoiAcceptsExactlyWellFormed | config.go:33-36 | Atoi returns a nil error if and only if the input is an optional sign plus digits whose value fits in 64 bits. It then returns that value. A syntax error comes with 0 and a range error with one of the two bounds |
| Strconv.ItoaWellFormed | config.go:35 | the canonical decimal form of any integer is a well-formed literal denoting it |
| Strconv.AtoiItoaRoundTrip | config.go:35 | every 64-bit integer written in decimal converts back to itself without error |
| Locations.EnvValue | config.go:24-27 | the environment source reads the variable named by the upper-cased key, and an unset variable reads as the empty string |
| Locations.EnvConfig | config.go:22-36 | `GetString` of the environment source is the upper-cased lookup, and `GetInt` is Atoi of exactly that string |
| Locations.EnvGetInt | config.go:33-36 | `GetInt` succeeds exactly when the upper-cased variable holds a literal that fits in 64 bits, and then returns its value. For an unset variable it fails with a syntax error and value 0 |
| Config.ResolveField | config.go:60-92 | name, settable flag, tag and kind are kept. An unsettable field or one of another kind is unchanged. A string field takes a non-empty source string, or else its tag verbatim. An int field takes a successful source integer, or else Atoi of its tag |
| Config.BindFields | config.go:59-94 | the loop keeps the number and order of fields and resolves each field on its own |
| Config.ParseFromLocation | config.go:49-96 | the call returns nil exactly for a pointer to a struct. It returns the sentinel exactly for a typed nil pointer or a pointer to a non-struct, and a reflection error exactly for a non-pointer. Every error leaves the destination unchanged. On success every field is resolved |
| Config.Parse | config.go:98-100 | `Parse` is `ParseFromLocation` with the environment source |
| ConfigProperties.ParseStructSucceeds | config.go:59-95 | binding a struct against the environment returns nil for every environment and resolves each field against the environment source |
| ConfigProperties.StringSourceWins | config.go:71-78 | a settable string field whose upper-cased variable is non-empty takes that value, whatever its default |
| ConfigProperties.StringDefaultFallback | config.go:68-75 | a settable string field whose variable is unset or empty takes its `default` tag verbatim, or `""` when none is declared |
| ConfigProperties.IntFieldResolution | config.go:79-88 | a settable int field takes the value of a valid 64-bit literal in its variable. Otherwise it takes the declarative Atoi result of its tag |
| ConfigProperties.IntSourceWins | config.go:79-88 | a valid 64-bit literal in the variable beats the int field's default |
| ConfigProperties.IntDefaultFallback | config.go:80-85 | when the variable is unset, malformed or out of range, an int field with a valid default takes the default's value |
| ConfigProperties.IntZeroFallback | config.go:80-85 | when the variable does not hold a 64-bit literal, and the tag is not a literal and has no leading digit run beyond 2^64-1 (a missing tag included), the int field becomes 0 and the call still returns nil |
| ConfigProperties.IntOverflowingDefault | config.go:81-84 | a default literal beyond 64 bits gives the clamped bound, not 0, because the range error is discarded |
| ConfigProperties.UntouchedFields | config.go:63-92 | unsettable fields and fields of unsupported kinds keep their entry value, and the call still returns nil |
| ConfigProperties.BindFieldsAppend | config.go:59-94 | fields are bound independently: binding a concatenation of field lists is the concatenation of the bindings |
| ConfigProperties.ResolveIgnoresEntryValue | config.go:68-88 | a settable string or int field resolves the same way whatever value of its kind it holds on entry |
| ConfigProperties.ResolveFieldIdempotent | config.go:63-92 | resolving an already resolved field against the same source changes nothing, for every field |
| ConfigProperties.ParseFromLocationIdempotent | config.go:49-96 | binding the result again against the same source leaves the destination unchanged |
| ConfigProperties.FieldNamesAreCaseInsensitive | config.go:24-27 | fields whose names differ only in ASCII letter case read the same variable and resolve to the same value |
| ConfigScenarios.HostPortKeys | config.go:25 | the fields `Host` and `Port` are read from `HOST` and `PORT` |
| ConfigScenarios.ScenarioConversions | config.go:33-36 | `8080` and `9090` convert to themselves, while `notanumber` and the empty string fail to convert |
| ConfigScenarios.BindSchema | config.go:59-95 | with `HOST` unset, `{Host, Port}` binds to `localhost` and to the converted `PORT`, or to 8080 when `PORT` does not convert |
| ConfigScenarios.NoVariablesSet | config.go:98-100 | with no variables set, `{Host, Port}` binds to `localhost` and 8080 |
| ConfigScenarios.PortFromEnvironment | config.go:79-88 | with `PORT=9090`, the port binds to 9090 |
| ConfigScenarios.PortNotANumber | config.go:80-85 | with `PORT=notanumber`, the port falls back to its default 8080 and no error is returned |
| ConfigScenarios.LowerCaseVariableIgnored | config.go:24-27 | a variable named `port` is not looked up for the field `Port` |
| ConfigScenarios.NinesRunOverflows | config.go:83 | `999999999999999999999x` is not a literal, yet its leading run of twenty-one nines already exceeds 2^64-1 |
| ConfigScenarios.OverflowBeforeBadCharacter | config.go:83 | Atoi of `999999999999999999999x` is a range error with the maximum 64-bit value, not a syntax error with 0, so such a default tag binds the field to that maximum |
| ConfigScenarios.FloatFieldUntouched | config.go:90-91 | a float field keeps its value and binding returns nil |
| ConfigScenarios.WrongShapes | config.go:49-57 | a pointer to a map gives the sentinel and no change; a struct passed by value gives a reflection error |

## Left out

- Logging (config.go lines 13, 64, 76, 86 and 91) is left out. It is diagnostic output only.
- The deferred `recover` (config.go lines 40-47) is modelled only through the recovered `*reflect.ValueError` of line 50, which becomes the returned error `ErrReflectValue`. Re-raising a `runtime.Error` is left out. So are panics raised by a caller's source (see Locations.ConfigLocation below), because the model's sources cannot panic.
- Reflection itself (`ValueOf`, `Elem`, `TypeOf`, `NumField`, `CanSet`, `Tag.Get`) is replaced by the descriptor table. Only exact `reflect.Int` counts as an int field. `int64`, `uint`, `bool`, floats and the rest are `Other`.
- Strings.ToUpper: maps only ASCII letters, because Go's Unicode case tables are not part of this model. Keys with non-ASCII letters may be upper-cased differently by Go.
- Strconv.Atoi: models a 64-bit `int` only. On a 32-bit platform the fast-path length bound and the clamping bounds differ.
- Go strings are byte strings and the model uses `seq<char>`. Atoi treats every non-ASCII byte as a non-digit, and so does the model.
- Locations.ConfigLocation: the error of a custom source's `GetInt` is limited to the two `strconv` error kinds. The binder only tests whether the error is nil, so nothing depends on its kind.
- The real `os.Getenv` and process environment are replaced by a map argument. The map is case-sensitive, as the environment is on POSIX systems. On Windows `os.Getenv` ignores case, so ConfigScenarios.LowerCaseVariableIgnored holds only on POSIX systems.
- Locations.ConfigLocation: sources are total functions that never panic. If a caller's `GetString` or `GetInt` panicked with an error value, the `recover` at config.go:41-45 would return that error after the earlier fields had already been set. That would break the promise that an error leaves the destination unchanged. A panic with a value that is not an error would crash the program at line 45. Neither is modelled.
- Concurrency is left out. The binder has no shared state.
