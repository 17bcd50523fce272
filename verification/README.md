# Result persistence layer

This project models the result store of the simulation service, from
`fastapi_app/database.py`. It covers:

- the four linked tables:
  - `OemofInputResult` pairs an input bundle with a result bundle;
  - `OemofData` is a bundle;
  - `OemofScalar` and `OemofSequence` are the rows a bundle owns;
- `store_results`, which writes an input mapping and a result mapping into two
  fresh bundles and links them under one new pair;
- `restore_results`, which looks a pair up by id and regroups each bundle's rows
  into the nested mapping `(from_node, to_node) -> {"scalars": ..., "sequences": ...}`;
- the tag dispatcher `type_conversion`, which restore uses to decode scalars.

The model has four modules:

- `Outcomes`: `Option`, `Result`, and the Python exceptions the layer lets escape
  (`StopIteration`, `IndexError`, `AttributeError`, `TypeError`, `ValueError`).
- `Codec`: scalar values by runtime type. Covers the text a scalar is stored as
  (`str()`), its type tag, `type_conversion`, and the sequence normaliser with its
  inverse.
- `Schema`: the row records and the two views that relate rows and mappings:
  - `BundleEncodes` says which rows a bundle must hold to encode a mapping.
  - `Regroup` is the mapping restore rebuilds from a set of rows.
  - The fold functions `GroupScalarRows` and `GroupSequenceRows` follow restore's
    two loops row by row. Lemmas prove that, in any row order, the folds give `Regroup`.
  - Lemmas prove that the table invariants are kept.
- `Persistence`: the class `Session`:
  - The pair, scalar and sequence tables are id-indexed map fields. The bundle
    table is the set field of its ids, since a bundle row has no column besides
    its id. Each id sequence is a counter field starting at 1.
  - The methods `StoreResults` and `RestoreResults` work in place, as the source
    does. The loops are proved against the `Schema` functions.
  - `DeleteData` and `DeletePair` model what the declared relationships do on delete.

The main results are:

- **Store, then restore.** `StoreThenRestore` stores two mappings and restores
  the returned id. It fails with `StopIteration` exactly when a mapping is empty.
  Otherwise it fails only with the `TypeError` or `ValueError` of a scalar that
  does not decode. It succeeds exactly when every scalar decodes, and then returns
  `Reloaded` of each mapping. `Reloaded` keeps the keys that carry an attribute
  and decodes each scalar through `type_conversion`. A mapping whose scalars are
  all strings, ints or floats, and whose every key carries at least one
  attribute, comes back unchanged. A key with no scalars and no sequences writes
  no rows, so restore does not recreate it.
- **Bool quirk.** Bool decoding is string truthiness, so every stored bool
  restores as `True`, including `False`.
- **Unknown type names.** A scalar whose type name is outside
  `{str, float, int, bool}` is written without complaint. Restoring it fails
  with `TypeError` naming the tag.

The model follows what the code does, in particular:

- An unknown type name is accepted on write, not rejected with a codec error.
- Restore raises Python's `TypeError` for an unknown tag, not an error of its own.
- Nothing makes the write all-or-nothing beyond the session's single commit.

## Model

| member | source | states |
|---|---|---|
| Codec.TypeTag | fastapi_app/database.py:160 | The type name written beside a scalar is a known tag exactly when the value is a str, int, bool or float, or a foreign value whose type name is one of those. |
| Codec.Text | fastapi_app/database.py:159 | The text stored for an int parses back to it, and the text stored for a bool is never empty. |
| Codec.IntToDecimal | fastapi_app/database.py:159 | `str(i)` starts with a minus sign exactly when `i` is negative, and the rest is a non-empty run of decimal digits. |
| Codec.ParseInt | fastapi_app/database.py:220 | `int()` accepts only an optionally signed run of decimal digits, so it rejects the empty string. A run of digits parses to the number it denotes, and a negative result comes from a leading minus sign. |
| Codec.TypeConversion | fastapi_app/database.py:214-223 | Success means a known tag, and the decoded value has that tag. The result is `TypeError(tag)` exactly when the tag is outside `{str, float, int, bool}`. The tags `str`, `float` and `bool` never fail. |
| Codec.DecodeErrors | fastapi_app/database.py:214-223 | Decoding fails only with `TypeError` naming the tag or `ValueError` naming the text. |
| Codec.NatDecimalRoundTrip | fastapi_app/database.py:219-220 | The digits `str` writes for a natural number denote that number. |
| Codec.DigitsParseRoundTrip | fastapi_app/database.py:219-220 | The digits `str` writes for a natural number parse back to it. |
| Codec.ParseNegated | fastapi_app/database.py:219-220 | A minus sign before a run of digits negates the parsed value. |
| Codec.IntDecimalRoundTrip | fastapi_app/database.py:219-220 | `int(str(i)) == i` for every integer, negative ones included. |
| Codec.DecodeEncode | fastapi_app/database.py:214-223 | A str, int or float scalar decodes from its stored text and tag to itself. A bool decodes to `True` whatever its value. A value whose type name is outside the known tags fails with `TypeError` naming it. |
| Codec.BoolIsTruthiness | fastapi_app/database.py:221-222 | Tag `bool` decodes the empty string to false and any other string, `"False"` included, to true. |
| Codec.Normalize | fastapi_app/database.py:166-179 | A Series is stored as its values with tag `"series"`, and any other sequence unchanged with tag `"list"`. `Denormalize` inverts it. |
| Codec.Denormalize | fastapi_app/database.py:251-254 | The values come back unchanged. The result is a Series exactly when the tag is `"series"`. |
| Schema.EncodeScalarDecodes | fastapi_app/database.py:155-161 | A scalar's row carries the bundle, key and attribute. Its stored text and tag decode to the scalar itself for str, int and float, and to `True` for bool. The row decodes without error exactly when the scalar is decodable. |
| Schema.EncodeSequenceRestores | fastapi_app/database.py:166-178 | A sequence's row carries the bundle, key and attribute, and its stored values and tag rebuild the same Series or list. |
| Schema.RowFails | fastapi_app/database.py:240-246 | A scalar row that fails to decode, in a bundle written for a mapping, fails with the error of the scalar of that mapping it was written for. |
| Schema.Unlink | fastapi_app/database.py:60-73 | After bundle `d` is deleted, a reference to `d` becomes `None` and any other reference is kept. |
| Schema.DropScalars | fastapi_app/database.py:83 | Deleting bundle `d` removes every scalar row of `d`. Every other bundle keeps exactly its scalar rows, unchanged. |
| Schema.DropSequences | fastapi_app/database.py:84 | Deleting bundle `d` removes every sequence row of `d`. Every other bundle keeps exactly its sequence rows. |
| Schema.UnlinkAll | fastapi_app/database.py:60-73 | Deleting bundle `d` keeps every pair and leaves no reference to `d`. |
| Schema.RegroupShape | fastapi_app/database.py:241-250 | The restored keys are exactly the distinct `(from_node, to_node)` pairs among the bundle's rows. A key with rows of only one kind gets an empty map for the other kind. |
| Schema.GroupScalarRows | fastapi_app/database.py:240-246 | When the scalar loop succeeds, every row it looked at decoded, and each row's key is in the mapping it built. |
| Schema.GroupScalarRowsStops | fastapi_app/database.py:244-246 | Once a row fails to decode, the scalar loop ends with that row's error, whatever rows follow. |
| Schema.GroupScalarRowsMeaning | fastapi_app/database.py:240-246 | In any row order, the scalar loop succeeds exactly when every row decodes, and then builds `Regroup` of the rows. A failure carries the error of one of the rows. |
| Schema.GroupSequenceRowsMeaning | fastapi_app/database.py:247-255 | In any row order, the sequence loop run on the scalar loop's mapping gives `Regroup` of both kinds of rows. |
| Schema.BundleRoundTrip | fastapi_app/database.py:240-255 | The rows written for a mapping all decode exactly when every scalar of the mapping decodes. They then regroup into `Reloaded` of the mapping. |
| Schema.LosslessRoundTrip | fastapi_app/database.py:214-223 | A mapping whose scalars are strings, ints or floats, and whose keys all carry an attribute, reloads to itself. |
| Schema.KeepEncodes | fastapi_app/database.py:150-152 | Rows added for other bundles leave the rows a bundle encodes untouched, so the result rows never leak into the input bundle. |
| Schema.DeleteRowsOk | fastapi_app/database.py:83-84 | Cascading the delete of a bundle to its rows keeps the row tables consistent: no row is left pointing at a missing bundle. |
| Schema.UnlinkOk | fastapi_app/database.py:60-73 | Nulling the references to a deleted bundle keeps the pair table consistent. |
| Schema.AddPairOk | fastapi_app/database.py:184-185 | Linking two fresh bundles under a new pair keeps each bundle owned by at most one pair role. |
| Persistence.ListRows | fastapi_app/database.py:240 | A bundle's relationship lists each of its rows exactly once, in some order. |
| Persistence.GroupScalars | fastapi_app/database.py:240-246 | The imperative scalar loop computes exactly the fold `GroupScalarRows`, including the early exit on the first failing row. |
| Persistence.GroupSequences | fastapi_app/database.py:247-255 | The imperative sequence loop computes exactly the fold `GroupSequenceRows`. |
| Persistence.Session.constructor | fastapi_app/database.py:54-114 | An empty database with all four tables empty and every id counter at 1. |
| Persistence.Session.AddScalarRows | fastapi_app/database.py:153-165 | One scalar row per attribute of the key, each carrying the key's labels, the attribute name, the value's text and its type name. Existing rows are kept, and the table invariants hold. |
| Persistence.Session.AddSequenceRows | fastapi_app/database.py:166-180 | One sequence row per sequence of the key, holding the normalised values and tag. Existing rows are kept, and the table invariants hold. |
| Persistence.Session.StoreEntry | fastapi_app/database.py:153-180 | The rows of one key, scalars then sequences, extend what the bundle encodes by that key. |
| Persistence.Session.StoreEntries | fastapi_app/database.py:153-180 | After the loop over the mapping's keys, the bundle encodes every key and owns every new row. Older rows are unchanged, and the table invariants hold. |
| Persistence.Session.StoreBundle | fastapi_app/database.py:150-184 | A fresh bundle whose rows are exactly those written for the mapping. No attribute is dropped, and every new row belongs to the bundle. |
| Persistence.Session.StoreResults | fastapi_app/database.py:118-189 | An empty mapping raises `StopIteration` with nothing written. Otherwise one new pair is created, with a fresh id, linking two new bundles that hold exactly the rows of the input and of the result. Every new row belongs to one of the two new bundles. Older pairs and rows are unchanged, so no earlier bundle gains a row. |
| Persistence.Session.RestoreBundle | fastapi_app/database.py:238-255 | The bundle restores exactly when every one of its scalar rows decodes, and then gives `Regroup` of its rows. Otherwise the error is that of one of its rows, a `TypeError` or a `ValueError`. |
| Persistence.Session.RestoreResults | fastapi_app/database.py:192-256 | An unknown id raises `IndexError(id)`. A pair with no input bundle raises `AttributeError`. Success means both bundles decode, and gives their regrouped mappings. Every failure is one of these errors or a row's decode error. A pair that has both bundles fails only with a `TypeError` or `ValueError`. The input bundle is restored first: if one of its rows does not decode, that row's error is raised, and if it decodes but the result bundle is missing, `AttributeError` is raised. |
| Persistence.Session.StoredRestores | fastapi_app/database.py:118-256 | A pair written for two mappings restores exactly when every scalar of both decodes, and then gives back `Reloaded` of each. |
| Persistence.Session.FailureOrigin | fastapi_app/database.py:238-246 | A decode error raised by a row of a pair written for two mappings is the error of a scalar of one of them. |
| Persistence.Session.StoreThenRestore | fastapi_app/database.py:118-256 | Storing and then restoring fails with `StopIteration` exactly when a mapping is empty. Otherwise any failure is the `TypeError` or `ValueError` of a scalar of one of the two mappings that does not decode. It succeeds exactly when every scalar decodes, and returns both mappings reloaded. Lossless mappings come back unchanged. |
| Persistence.Session.DeleteData | fastapi_app/database.py:83-84 | Deleting a bundle removes it and all its scalar and sequence rows, nulls the pair reference to it, and leaves everything else unchanged. |
| Persistence.Session.DeletePair | fastapi_app/database.py:62-73 | Deleting a pair removes only that pair. Its bundles and rows stay, since the relationships declare no cascade. |

## Left out

- Key stringification: `convert_keys_to_strings` is a foreign oemof call. Keys are modelled as string pairs already. The source's `isinstance(next(iter(...)), str)` test looks at a tuple key, so it is always false and the conversion always runs; on string keys that is the identity. Only the `StopIteration` of `next(iter({}))` on an empty mapping is modelled.
- Session mechanics: `add_all`, `flush`, `commit`, `query` and transaction atomicity are not modelled. The session is the in-memory tables, and database-generated ids are counters.
- Floats: the model does not parse `float(value_str)`. A float scalar is its text, and tag `float` gives that text back. Sequence elements are mathematical reals, not `DOUBLE_PRECISION` values.
- pandas: a Series is modelled as a tagged value list. Its index, which is not persisted, is not modelled.
- Bool text: the model stores `str(b)`, `"True"` or `"False"`. A database driver may write `"true"`/`"false"` instead. Both are non-empty, so decoding gives `True` either way.
- Codec.ParseInt: accepts an optional sign followed by ASCII decimal digits. Python's `int()` also accepts surrounding whitespace, underscores and non-ASCII digits, which are not modelled. Every string `str()` writes for an int is in the modelled subset.
- Codec.DecodeEncode: says nothing about a foreign value whose type name happens to be `str`, `float`, `int` or `bool`. Such a value decodes as that type, and its result depends on its text.
- Persistence.Session.RestoreBundle: on failure it names the error of some row that does not decode, not which one. The order in which a relationship lists its rows is not modelled, so the first failing row is not determined.
- Mapping and relationship iteration order: every loop picks its next key or row arbitrarily, so every proved property holds for all orders.
- Duplicate rows: `store_results` writes one row per key and attribute in each bundle, since it iterates mappings. The table invariant `Valid()` records this, and `RestoreResults` requires it. A table that something else filled with two rows for the same key and attribute in one bundle is not modelled. On such a table the source keeps whichever row the relationship lists last.
- HTTP layer, job queue, simulation call, settings and command-line entry point: outside the persistence layer, and not part of this model.
