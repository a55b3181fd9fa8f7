# LiveCheck test-execution records, in Dafny

This project models the record layer of faust's LiveCheck add-on
(`faust/livecheck/models.py`). LiveCheck runs test cases against a live
stream-processing application. A request to run a test travels with a
message as three headers: `LiveCheck-Test-Id`, `LiveCheck-Test-Name` and
`LiveCheck-Test-Timestamp`. The model covers:

- `TestExecution.from_headers`: header mapping to an optional test execution;
- `TestExecution.as_headers`: test execution back to the three headers;
- the derived identifiers `ident`, `shortident` and `short_case_name`, with
  `_build_ident` joining a name and an id by `':'`;
- the `SignalEvent` record, a plain datatype.

Modules:

- `Wrappers` (`wrappers.dfy`): `Option`, and `Get`, which models Python's `dict.get`.
- `PyStr` (`pystr.dfy`): Python's `str.split` on a one-character separator,
  which `short_case_name` uses. `join` (the inverse of `split`) and `find`
  are proof helpers only; the models do not call them. The module also holds
  `LastSegment`, a second, independent definition of `s.split(sep)[-1]`.
- `LiveCheckModels` (`livecheck_models.dfy`): the header constants, the two
  records, and the operations and their properties.

Header values have a type parameter `V`. A Python mapping may hold any value,
and these operations pass values through unchanged. The identifiers are
defined on `TestExecution<string>`, because `id` is declared as `str`.
`timestamp` is declared as a float but is only carried, so it stays opaque.

The record is kept as the code builds it. `from_headers` passes `name=`, not
the declared field `case_name`, and `as_headers` reads `self.name`. So the
datatype has a `name` slot of its own, and `caseName` is an `Option`: `None`
when the record was built without it. See "## Findings".

## Model

| member | source | states |
|---|---|---|
| `Wrappers.Get` | faust/livecheck/models.py:42-43 | `headers.get(k)` is `None` exactly when `k` is absent, and otherwise the stored value |
| `LiveCheckModels.FromHeaders` | faust/livecheck/models.py:33-46 | no record exactly when the test-id header is absent; otherwise id is that header, name and timestamp are the other headers or `None`, no arguments or keyword arguments, and no case name |
| `LiveCheckModels.AsHeaders` | faust/livecheck/models.py:48-53 | the result has exactly the three header keys of lines 10-12, which are distinct (so three entries), holding id, name and timestamp |
| `LiveCheckModels.HeadersRoundTrip` | faust/livecheck/models.py:33-53 | when the id header is present, decoding then encoding agrees with the input on the three LiveCheck keys (missing ones come back as `None`) and drops all other keys |
| `LiveCheckModels.HeadersRoundTripComplete` | faust/livecheck/models.py:33-53 | with all three headers present, decode-then-encode returns exactly those three headers |
| `LiveCheckModels.RecordRoundTrip` | faust/livecheck/models.py:33-53 | encoding any record and decoding the result (a `None` value reads back as `None`, as `.get` gives) returns the record with case name, arguments and keyword arguments cleared |
| `LiveCheckModels.BuildIdent` | faust/livecheck/models.py:66-67 | for a name without `':'`, the identifier parses back into that name and id |
| `LiveCheckModels.ParseIdent` | faust/livecheck/models.py:66-67 | inverse of `_build_ident`: splits at the first `':'` into a colon-free name and the rest, and rebuilding gives the input back |
| `LiveCheckModels.BuildIdentInjective` | faust/livecheck/models.py:66-67 | identifiers built from colon-free names are equal only when their names and ids are equal |
| `LiveCheckModels.Ident` | faust/livecheck/models.py:55-57 | `ident` exists exactly when the record has a case name; it is always `case_name + ':' + id`, and for a colon-free case name it parses back into the case name and id |
| `LiveCheckModels.ShortCaseName` | faust/livecheck/models.py:83-85 | the short name has no `'.'`; it is a suffix of the case name; it equals the case name when that has no `'.'`; otherwise the case name is a prefix, then `'.'`, then the short name |
| `LiveCheckModels.ShortCaseNameIsLastSegment` | faust/livecheck/models.py:83-85 | `case_name.split('.')[-1]` equals the segment found by walking back from the end to the last `'.'` |
| `LiveCheckModels.ShortIdent` | faust/livecheck/models.py:59-64 | exists exactly when the record has a case name; always begins with `short_case_name + ':'`, whatever `abbr` returns; for a colon-free case name it parses back into the short name and `abbr(id)` |
| `LiveCheckModels.ShortIdentIsIdent` | faust/livecheck/models.py:55-67 | for a case name without dots, and an `abbr` that leaves the id unchanged, `shortident` equals `ident` |
| `LiveCheckModels.DecodedRecordHasNoIdent` | faust/livecheck/models.py:40-46 | as written, a record decoded from headers has no case name, so it has neither `ident` nor `shortident` |
| `LiveCheckModels.DecodedRecordHasNoIdentExample` | faust/livecheck/models.py:40-46 | headers naming the case `orders.test_order` put it in the `name` slot and give no identifier |
| `LiveCheckModels.FromHeadersIntended` | faust/livecheck/models.py:33-46 | corrected decoder: same presence rule and id; the test-name header fills the case name |
| `LiveCheckModels.AsHeadersIntended` | faust/livecheck/models.py:48-53 | corrected encoder: the three distinct keys, with the test-name header carrying the case name |
| `LiveCheckModels.IntendedHeadersGiveIdent` | faust/livecheck/models.py:33-67 | with the corrected pair, headers holding an id and a name yield `ident` = `name:id` and `shortident` = `short(name):abbr(id)`, and encoding returns the three headers |
| `PyStr.Split` | faust/livecheck/models.py:85 | `str.split(sep)` (the pieces between separators, empty ones included) never returns an empty list; it has one part exactly when `sep` does not occur; no part contains `sep` |
| `PyStr.JoinSplit` | faust/livecheck/models.py:85 | joining the parts of a split with the separator gives the original string back |
| `PyStr.JoinLast` | faust/livecheck/models.py:85 | a join of two or more parts is the join of all but the last, the separator, then the last part |
| `PyStr.LastSegment` | faust/livecheck/models.py:85 | independent definition of the last segment: separator-free, a suffix, the whole string when there is no separator, otherwise preceded by the separator |
| `PyStr.LastSegmentUnique` | faust/livecheck/models.py:85 | at most one suffix has those four properties |

## Left out

- `examples/simple.py`: application wiring. It covers Kafka app construction, an agent loop, a producer driven by randomness, the clock and the network, and windowed tables. None of it is modelled. The windowed table's implementation is not part of this model.
- `TestExecution.date` and `human_date` (faust/livecheck/models.py:69-81): these depend on timestamp-to-datetime conversion, time zones, `strftime` and the wall clock.
- `abbr` (from `mode.utils.text`): foreign code. `ShortIdent` takes it as a function parameter and assumes nothing about it.
- The faust `Record` constructor's handling of the undeclared `name=` keyword and the missing `case_name`. The model keeps both as plain data: a `name` slot, and an absent case name.
- `LiveCheckModels.Ident`: returns `None` for a record without a case name. The source would fail to read the attribute instead, in a way the Record library decides.
- `LiveCheckModels.ShortIdent`: returns `None` for a record without a case name, where the source would fail reading `case_name`, as for `ident`.
- `LiveCheckModels.AsHeaders`: writes a `None` name header when the record's `name` slot is `None`. `name` is not a declared field, so a record built with its declared fields and no `name` would make the source raise `AttributeError` at line 51. The model's `None` covers both "passed as `None`" and "never set".
- Record serialisation and `cached_property` memoisation: memoisation changes no observable value.
- `timestamp` is never computed with, so floating point is not modelled.
- `test_args` is passed as an empty tuple but declared as a list. Both are modelled as an empty sequence.

## Findings

| source | as written | input that shows it | evidently intended | confidence | as-written member | corrected member |
|---|---|---|---|---|---|---|
| faust/livecheck/models.py:42 | `from_headers` passes the test-name header as `name=` and `as_headers` reads `self.name`, but the declared field is `case_name`, which `ident`, `shortident` and `short_case_name` read | headers `{'LiveCheck-Test-Id': 't1', 'LiveCheck-Test-Name': 'orders.test_order'}`: the decoded record has no `case_name`, so no identifier can be formed; conversely a record built with its declared `case_name` and no `name` cannot be encoded, since line 51 reads the undeclared `name` | `case_name=headers.get(HEADER_TEST_NAME)` and `self.case_name` in `as_headers` | medium, not executed; how the Record constructor treats `name=` is not modelled | `LiveCheckModels.DecodedRecordHasNoIdent` | `LiveCheckModels.IntendedHeadersGiveIdent` |
