# pybitrix24 parameter encoding, in Dafny

This project models the parameter-encoding helpers of the pybitrix24 client
(`pybitrix24/utils.py`). These helpers turn a nested dict of call parameters into the
bracketed query string the Bitrix24 REST API expects, for example `a[b][c]=value`. They
also assemble several named calls into the command map of a `batch` request. Four
operations make up the core:

- `flatten` turns a nested dict into rows. Each row holds the keys on the way down,
  taken in sorted order, followed by the non-dict value found at the end.
- `parametrize` renders a key path as `a[b][c]`.
- `multidict_urlencode` names every row. A list or tuple value gets a `[]` suffix. It
  stores the rows in an `OrderedDict`, where a repeated name keeps its first position
  and takes the last value. It then URL-encodes the result with `doseq=True`.
- `prepare_batch_command` turns each named call into a `method?query` string. A call may
  be a string, a pair, or a `{method, params}` dict. Any other shape raises
  `ValueError` naming the call.

Layout, one module per file:

| file | module | contents |
|---|---|---|
| `wrappers.dfy` | `Wrappers` | `Option`, `Result` |
| `values.dfy` | `Values` | the Python values the helpers see: strings, other scalars, lists/tuples, dicts |
| `errors.dfy` | `Errors` | the exceptions raised: `TypeError`, `ValueError` naming a call and the shape it lacks |
| `keyorder.dfy` | `KeyOrder` | Python's order on `str` and the `sorted()` key order `flatten` uses |
| `flatten.dfy` | `Flattening` | `flatten`: the specification `Flat` and the loop `Flatten` |
| `parametrize.dfy` | `Paths` | `parametrize`, and a parser that reads a bracketed name back |
| `ordered.dfy` | `Ordered` | insertion-ordered dicts as sequences of pairs; `d[k] = v` |
| `urlencode.dfy` | `UrlEncoding` | `multidict_urlencode` and `urlencode(..., doseq=True)` |
| `batch.dfy` | `Batch` | `prepare_batch_command` |

The three loops that build a collection step by step are `method`s with the same
loops: the nested append loops of `flatten` (`Flatten`, `AppendUnder`), the loop of
`multidict_urlencode` that fills the `OrderedDict` (`CollectParams`), and the loop of
`prepare_batch_command` that fills `commands` (`PrepareBatchCommand`). Each `ensures`
ties the result to a recursive specification function: `Flat`, `Collect` and
`Prepared`. The specification functions carry the lemmas. The generator join inside
`parametrize` builds a string in one expression, and `Bracketed` renders it as a
recursive function.

Modelling choices:

- **Dicts.** A dict that is a parameter value is a `map`. That loses nothing for the
  dicts that `flatten` walks into, because it sorts their keys before use. A dict held
  inside a list value is not walked, and it loses its order (see "## Left out"). The ordered dicts built by the helpers are sequences of
  (name, value) pairs, because their insertion order is observable.
- **Batch input.** The batch's input dict is a sequence of (name, call) pairs in
  insertion order. A Python dict has distinct names, and the lemmas that need this
  state it as a precondition.
- **Keys.** Dict keys are strings. Python compares strings by code point, and
  `KeyOrder.Below` is that order.
- **Encoding.** Percent-encoding (`quote_plus`) and `str()` of a container are
  parameters of the model (`UrlEncoding.Codec`). The model fixes everything around
  them: one `name=value` segment per list element, and segments joined by `&`.
- **Non-string method.** A pair or dict call whose method is not a string makes
  `'?'.join` raise `TypeError`, and the model returns that error.

## Model

| member | source | states |
|---|---|---|
| `KeyOrder.Below` | pybitrix24/utils.py:29 | Python's `<` on `str`: the first differing code point decides, and a proper prefix sorts first; its order properties are the four lemmas below |
| `KeyOrder.BelowIrreflexive` | pybitrix24/utils.py:29 | no key sorts before itself |
| `KeyOrder.BelowAsymmetric` | pybitrix24/utils.py:29 | two keys are never each below the other |
| `KeyOrder.BelowTransitive` | pybitrix24/utils.py:29 | the key order used by `sorted` is transitive |
| `KeyOrder.BelowTotal` | pybitrix24/utils.py:29 | any two distinct keys are ordered one way or the other |
| `KeyOrder.Greatest` | pybitrix24/utils.py:29 | a non-empty key set has a member above all others |
| `KeyOrder.SortedKeys` | pybitrix24/utils.py:29 | `sorted(d)`: exactly the dict's keys, each once, strictly ascending |
| `KeyOrder.SortedUnique` | pybitrix24/utils.py:29 | two strictly ascending sequences with the same members are equal, so the sort order is fully determined |
| `KeyOrder.SortedKeysTwo` | pybitrix24/utils.py:29 | two keys come out lesser first |
| `KeyOrder.SortedKeysExample` | pybitrix24/utils.py:29 | `sorted({"b", "a"})` is `["a", "b"]` |
| `Flattening.Flat` | pybitrix24/utils.py:25-37 | a non-dict gives the single row `[d]`; no row ends in a dict; each row of a dict starts with one of its keys |
| `Flattening.Prefixed` | pybitrix24/utils.py:33-35 | each nested row with `key` put in front, in order; `PrefixedMembership` and `PrefixedOrdered` carry its promises |
| `Flattening.FlatEntries` | pybitrix24/utils.py:28-35 | the rows for the listed keys all start with one of those keys and end in a non-dict |
| `Flattening.Flatten` | pybitrix24/utils.py:9-37 | the recursion with its nested append loops returns exactly `Flat(d)` |
| `Flattening.AppendUnder` | pybitrix24/utils.py:32-35 | the inner loop appends `[key] + nest` for every nested row, in order |
| `Flattening.FlatEntriesSnoc` | pybitrix24/utils.py:29-35 | one more key of the outer loop appends that key's block of rows |
| `Flattening.FlatMembership` | pybitrix24/utils.py:25-37 | a row is produced iff its path leads through nested dicts to that non-dict value |
| `Flattening.FlatEntriesMembership` | pybitrix24/utils.py:29-35 | a row of a dict is one of its keys followed by a row of that key's value |
| `Flattening.PrefixedMembership` | pybitrix24/utils.py:33-35 | a prefixed row is the key followed by a nested row |
| `Flattening.FlatOrdered` | pybitrix24/utils.py:28-37 | the rows' key paths are strictly ascending, lexicographically by key |
| `Flattening.FlatEntriesOrdered` | pybitrix24/utils.py:29-35 | ascending keys give ascending row paths |
| `Flattening.FlatGroupedByKey` | pybitrix24/utils.py:28-37 | every row of a dict has a key, rows are grouped by first key in ascending order, and no two rows share a path |
| `Flattening.FlatSize` | pybitrix24/utils.py:25-37 | the number of rows equals the number of non-dict leaves, so an empty nested dict contributes none |
| `Flattening.FlatEntriesSize` | pybitrix24/utils.py:29-35 | the rows of a key set number the leaves under those keys |
| `Flattening.LeafSumRemove` | pybitrix24/utils.py:29-35 | the leaf count over a key set splits off any one key |
| `Flattening.FlatOne` | pybitrix24/utils.py:28-37 | a one-key dict gives its value's rows, each under that key |
| `Flattening.FlatTwo` | pybitrix24/utils.py:28-37 | a two-key dict gives the lesser key's rows, then the greater key's |
| `Flattening.FlatEntriesPair` | pybitrix24/utils.py:29-35 | two keys' blocks come out in the order of the keys |
| `Flattening.FlatStringExample` | pybitrix24/utils.py:12-13 | `flatten({"a": "b"})` is `[["a", "b"]]` |
| `Flattening.FlatListExample` | pybitrix24/utils.py:14-15 | a list value is a single leaf, not spread over rows |
| `Flattening.FlatLeafUnder` | pybitrix24/utils.py:12-13 | a one-key dict over a non-dict value gives the single row `[k, value]` |
| `Flattening.FlatNestedTwo` | pybitrix24/utils.py:16-17 | `{b: {c: e}}` gives the single row `[b, c, e]` |
| `Flattening.FlatNested` | pybitrix24/utils.py:18-19 | `{a: {b: {c: e}}}` gives the single row `[a, b, c, e]` |
| `Flattening.FlatTwoLeaves` | pybitrix24/utils.py:20-21 | sibling keys over leaves give one row each, lesser key first |
| `Flattening.FlatTwoOver` | pybitrix24/utils.py:22-23 | sibling keys over nested dicts give the lesser key's rows, then the greater key's |
| `Flattening.FlatSiblings` | pybitrix24/utils.py:22-23 | `{a: {x: u, y: v}, b: {z: w}}` with `a < b` and `x < y` gives `[[a, x, u], [a, y, v], [b, z, w]]` |
| `Flattening.SiblingRows` | pybitrix24/utils.py:33-35 | prefixing the two sibling blocks of that example gives its three rows |
| `Flattening.FlatOneRow` | pybitrix24/utils.py:16-19 | wrapping a value with one row in a one-key dict extends that row's path by the key |
| `Flattening.PrefixedLeaf` | pybitrix24/utils.py:25-26 | a non-dict under a key gives the row `[key, value]` |
| `Flattening.PathBelowIrreflexive` | pybitrix24/utils.py:29 | no path sorts before itself |
| `Paths.Parametrize` | pybitrix24/utils.py:51-53 | `parametrize(path)`: the first segment bare, then `Bracketed` of the rest; `parametrize` reads `params[0]`, so the path must be non-empty; `ParametrizeRoundTrip`, `ParametrizeInjective`, `ParametrizeSnoc` and `ParametrizeExamples` carry its promises |
| `Paths.Bracketed` | pybitrix24/utils.py:52 | the generator join: every segment wrapped in `[` `]`, in order; `BracketedSnoc` and `ParseBracketed` carry its promises |
| `Paths.ParametrizeRoundTrip` | pybitrix24/utils.py:51-52 | with bracket-free keys, reading `a[b][c]` back gives the path it came from |
| `Paths.ParametrizeInjective` | pybitrix24/utils.py:51-52 | with bracket-free keys, distinct paths give distinct names |
| `Paths.ParametrizeSnoc` | pybitrix24/utils.py:51-52 | one more segment appends `[segment]`; the first segment stays bare |
| `Paths.BracketedSnoc` | pybitrix24/utils.py:52 | the joined brackets extend segment by segment, in order |
| `Paths.ParseBracketed` | pybitrix24/utils.py:52 | the bracket groups read back into their segments |
| `Paths.ParametrizeExamples` | pybitrix24/utils.py:43-48 | `a`, `a[b]` and `a[b][c]` |
| `Ordered.Put` | pybitrix24/utils.py:73 | `d[k] = v` makes `d.get(k)` be `v` |
| `Ordered.PutOther` | pybitrix24/utils.py:73 | `d[k] = v` leaves every other key as it was |
| `Ordered.PutNew` | pybitrix24/utils.py:73 | a new key goes last |
| `Ordered.PutNames` | pybitrix24/utils.py:73 | an existing key keeps its position; a new one is added last |
| `Ordered.PutFrom` | pybitrix24/utils.py:73 | every pair afterwards is an old pair or the new one |
| `Ordered.GetNone` | pybitrix24/utils.py:73 | a lookup misses iff the key was never stored |
| `Ordered.Dedup` | pybitrix24/utils.py:65-73 | first occurrences only: distinct, with the same members |
| `UrlEncoding.MultidictUrlencode` | pybitrix24/utils.py:56-75 | raises `TypeError` iff the argument is not a dict, and otherwise returns what `Urlencoded` specifies |
| `UrlEncoding.Urlencoded` | pybitrix24/utils.py:56-75 | `TypeError` for a non-dict, otherwise `urlencode` of `Collect(Flat(params))`; `UrlencodedWithoutCollisions`, `UrlencodedSingle`, `UrlencodedList` and `QueryRoundTrip` carry its promises |
| `UrlEncoding.NameOf` | pybitrix24/utils.py:69-71 | `parametrize` of a row's path, plus `[]` when its value is a list or tuple; `NameOfNamedPath` and `DistinctRowsDistinctNames` carry its promises |
| `UrlEncoding.Text` | pybitrix24/utils.py:75 | `str(v)`: a string as is, another scalar by its text, a container by `Codec.show` |
| `UrlEncoding.PairSegments` | pybitrix24/utils.py:75 | `doseq=True` for one pair: one quoted `name=value` per element of a list or tuple, one for any other value |
| `UrlEncoding.Segments` | pybitrix24/utils.py:75 | the segments of all pairs, pair by pair in dict order; `SegmentsShape` carries its promise |
| `UrlEncoding.JoinAmp` | pybitrix24/utils.py:75 | the segments joined by `&`; `SplitJoin` and `JoinStartsWith` carry its promises |
| `UrlEncoding.Query` | pybitrix24/utils.py:75 | `urlencode(pairs, doseq=True)`; `QueryRoundTrip` carries its promise |
| `UrlEncoding.CollectParams` | pybitrix24/utils.py:65-73 | the loop builds exactly `Collect(rows)`: each row's name from its path, `[]` added for a list leaf |
| `UrlEncoding.Collect` | pybitrix24/utils.py:65-73 | rows without dict leaves give pairs without dict values, so `urlencode` never sees a dict |
| `UrlEncoding.CollectSnoc` | pybitrix24/utils.py:66-73 | one more row stores its name and value in the ordered dict |
| `UrlEncoding.CollectNames` | pybitrix24/utils.py:65-73 | each name appears once, at the position of its first row |
| `UrlEncoding.CollectLastWins` | pybitrix24/utils.py:73 | a repeated name holds the value of its last row |
| `UrlEncoding.CollectWithoutCollisions` | pybitrix24/utils.py:65-73 | with no repeated names, one pair per row in row order |
| `UrlEncoding.NamesStep` | pybitrix24/utils.py:73 | storing a name keeps the names equal to the first occurrences |
| `UrlEncoding.NameOfNamedPath` | pybitrix24/utils.py:69-71 | a row's name is `parametrize` of its path, with an empty last segment for a list |
| `UrlEncoding.NamesDistinctWhenBracketFree` | pybitrix24/utils.py:63-73 | with bracket-free keys, no two rows of `flatten` share a name |
| `UrlEncoding.DistinctRowsDistinctNames` | pybitrix24/utils.py:69-71 | with bracket-free keys, equal names mean equal paths |
| `UrlEncoding.ListLeafNameUnclaimed` | pybitrix24/utils.py:69-71 | the `[]` name of a list leaf belongs to no other row |
| `UrlEncoding.NamedPathBracketFree` | pybitrix24/utils.py:69-71 | the segments of a row's name are bracket-free when the keys are |
| `UrlEncoding.LookupBracketFree` | pybitrix24/utils.py:63 | a path found through bracket-free dicts has bracket-free keys |
| `UrlEncoding.LookupBeyondLeaf` | pybitrix24/utils.py:63 | no path continues past a non-dict value |
| `UrlEncoding.UrlencodedWithoutCollisions` | pybitrix24/utils.py:56-75 | with bracket-free keys, the query holds one entry per row of `flatten`, in its order |
| `UrlEncoding.SegmentsShape` | pybitrix24/utils.py:75 | `doseq` gives one quoted `name=value` segment per list element, one per other value |
| `UrlEncoding.SplitJoin` | pybitrix24/utils.py:75 | splitting the `&`-joined segments gives them back |
| `UrlEncoding.JoinStartsWith` | pybitrix24/utils.py:75 | the joined query starts with its first segment |
| `UrlEncoding.QueryRoundTrip` | pybitrix24/utils.py:75 | decoding the query gives every name with every value, in order |
| `UrlEncoding.CollectOneRow` | pybitrix24/utils.py:69-73 | a one-key path over a plain value is named by its key |
| `UrlEncoding.CollectOneListRow` | pybitrix24/utils.py:69-73 | a one-key path over a list is named `key[]` |
| `UrlEncoding.UrlencodedSingle` | pybitrix24/utils.py:56-75 | `{k: v}` encodes as `quote(k)=quote(str(v))` |
| `UrlEncoding.UrlencodedList` | pybitrix24/utils.py:56-75 | `{k: [x, y, ...]}` encodes as `k[]=x&k[]=y&...`, one segment per element |
| `Batch.Command` | pybitrix24/utils.py:80-94 | a `ValueError` always names the offending call |
| `Batch.CommandMeaning` | pybitrix24/utils.py:80-94 | a string passes through; `ValueError` iff the call is neither a string nor has both parts; success iff a string or a string method with dict params; then `method?urlencode(params)` |
| `Batch.Parts` | pybitrix24/utils.py:83-92 | the method and params a call carries: `call[0]` and `call[1]` of a sequence of length 2 or more, `call['method']` and `call['params']` of a dict with both keys, otherwise none; `CommandMeaning` uses it |
| `Batch.Joined` | pybitrix24/utils.py:85-90 | `'?'.join([method, query])` once `query` is known: the encoder's error first, then `TypeError` for a non-string method |
| `Batch.Gather` | pybitrix24/utils.py:79-95 | the `commands` dict after storing each outcome with `commands[name] = command`, or the first error; `GatherSucceeds`, `GatherFirstError`, `GatherNames` and `GatherInOrder` carry its promises |
| `Batch.Prepared` | pybitrix24/utils.py:78-96 | what `prepare_batch_command(calls)` returns or raises; `PreparedSucceeds`, `PreparedFirstError`, `PreparedNames` and `PreparedInOrder` carry its promises |
| `Batch.CommandFor` | pybitrix24/utils.py:81-94 | the loop body for one call: a string passes through, and `ValueError` is raised iff the call is neither a string nor has both method and params; the result is `Command` |
| `Batch.CallFormsAgree` | pybitrix24/utils.py:83-92 | a pair ignores elements beyond the second and means what the dict form means |
| `Batch.PrepareBatchCommand` | pybitrix24/utils.py:78-96 | the loop returns `Prepared(calls)`, stopping at the first error |
| `Batch.JoinCommand` | pybitrix24/utils.py:85-90 | `'?'.join([method, multidict_urlencode(params)])` succeeds iff the method is a string and the params a dict, gives `method?query` with the encoded params, and otherwise raises `TypeError` |
| `Batch.GatherSnoc` | pybitrix24/utils.py:79-95 | one more call stores its command or stops at its error |
| `Batch.GatherStopsAt` | pybitrix24/utils.py:84-94 | after an error the later calls are not looked at |
| `Batch.GatherSucceeds` | pybitrix24/utils.py:79-96 | storing outcomes succeeds iff every outcome does |
| `Batch.GatherFirstError` | pybitrix24/utils.py:79-96 | the error is that of the first failing outcome |
| `Batch.GatherNames` | pybitrix24/utils.py:95 | the stored names are the outcome names, first occurrences, in order |
| `Batch.GatherInOrder` | pybitrix24/utils.py:95-96 | with distinct names, one command per outcome, in order |
| `Batch.NamesInit` | pybitrix24/utils.py:80 | a prefix of distinct names is distinct and misses the last name |
| `Batch.PreparedSucceeds` | pybitrix24/utils.py:78-96 | the batch succeeds iff every call does |
| `Batch.PreparedFirstError` | pybitrix24/utils.py:78-96 | the batch raises what its first failing call raises |
| `Batch.PreparedNames` | pybitrix24/utils.py:95-96 | the result is keyed by exactly the input's names, in input order |
| `Batch.PreparedInOrder` | pybitrix24/utils.py:95-96 | for a dict of calls, every call succeeded and the result holds `(name, command)` for each call, in order |
| `Batch.PreparedOne` | pybitrix24/utils.py:78-96 | a one-call batch is that call's command, or its error |
| `Batch.BatchExamples` | pybitrix24/utils.py:81-92 | a string passes through; the pair and dict forms give `method?k=v` |
| `Batch.BatchErrorExamples` | pybitrix24/utils.py:83-94 | an integer, an empty sequence and a dict without `params` raise `ValueError` naming the call; non-dict params raise `TypeError` |

## Left out

- The import fallback between `urllib.parse` and `urllib` (pybitrix24/utils.py:3-6) is
  plumbing with no behaviour to model.
- `quote_plus` and `str()` of a list or dict inside a list value are library calls. They
  are the opaque functions `Codec.quote` and `Codec.show`. The escaping itself is not
  modelled.
- `UrlEncoding.QueryRoundTrip`: stated against a reference decoder that keeps blank
  values. It assumes an unquote that inverts `Codec.quote`, and a quoting that never
  emits `&` or `=`. The standard `parse_qsl` drops blank values by default, and that
  difference is not modelled.
- Keys are strings. `str()` of a non-string key in `parametrize`, and the `TypeError`
  that `sorted` raises on mixed key types, are not modelled.
- A value that is neither a string, a list, a tuple nor a dict is a `Scalar` carrying
  its `str()` text. Sets and other sized values that `urlencode` would spread are not
  modelled. Neither are bytes, which it quotes whole without `str()`.
- Exception messages and the chained `IndexError`/`KeyError` are not modelled. The model
  keeps which exception is raised and, for `ValueError`, the call's name and which
  shape was wrong.
- Cyclic or self-referencing inputs cannot be built from the datatype.
- `flatten` recurses once per level of nesting. Python raises `RecursionError` on params
  nested deeper than its recursion limit, and the model has no such limit.
- `Values.List` stands for both lists and tuples, which the source treats alike at
  utils.py:70 and utils.py:83. Inside a list value, `str()` renders a nested tuple
  `(1, 2)` differently from a nested list `[1, 2]`. The model passes both to the same
  `Codec.show`, so it does not tell them apart.
- A dict inside a list value reaches `Codec.show` as a `map`, without its insertion
  order. `str()` of a Python dict lists its keys in insertion order, so
  `{"a": [{"y": "1", "x": "2"}]}` and `{"a": [{"x": "2", "y": "1"}]}` encode differently
  in Python. The model gives one `Value`, and so one query, for both.
- `Batch.PreparedInOrder` and `Batch.PreparedNames` give the commands in the calls'
  order. The plain `dict` that `prepare_batch_command` returns keeps insertion order
  only from Python 3.7 on. On older interpreters, including the Python 2 the import
  fallback serves, the order of the returned dict is unspecified.
- `param.pop()` mutates the rows that `flatten` returns in place. Those rows are fresh
  lists, so nothing else observes the mutation. The model reads the last element
  without removing it.
- `UrlEncoding.NamesDistinctWhenBracketFree`: the absence of name collisions is proved
  only for bracket-free keys. A key such as `"a[b]"` next to a nested `{"a": {"b": ...}}`
  gives two rows one name, and then the later value overwrites the earlier one.
  `UrlEncoding.CollectLastWins` and `UrlEncoding.CollectNames` still describe that
  case.
- `Batch.PreparedInOrder`: requires distinct names, which a Python dict of calls always
  has. `Batch.PreparedNames` covers any sequence of names.
