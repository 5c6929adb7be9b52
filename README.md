# Layered configuration of the Sui JSON-RPC indexer

This project models, in Dafny, how the JSON-RPC indexer service
(`crates/sui-indexer-alt-jsonrpc/src/config.rs`) resolves its configuration.

A configuration document is read into *layers*. A layer is a record whose known
fields are all optional, plus an `extra` table that holds every key of the
document that matches no known field. The transactions layer has two known
fields, the default and the maximum page size. Finishing a layer against a
*baseline* (fully resolved settings) takes each field from the layer when it
is set and from the baseline otherwise. Unrecognised keys never make the
merge fail; they only produce a warning that names the scope, says "field"
for exactly one unrecognised key and "fields" otherwise, and renders the
unrecognised keys with their values. The number of keys is used only to
choose between "field" and "fields"; it is not printed.
Resolved settings can be turned back into a complete layer; that is how the
example document is built from the built-in defaults.

Layout:

- `wrappers.dfy` (module `Wrappers`): `Option` with `UnwrapOr`.
- `toml.dfy` (module `Toml`): raw TOML values and the table of unrecognised keys.
  A TOML table is ordered and holds each key once. It is modelled as a sequence
  of entries with pairwise distinct keys. `KeyCount` proves that its length, the
  count used in the warning, is the number of distinct unrecognised keys.
- `config.dfy` (module `Config`): the settings, the layers, the extras check,
  both `finish` operations, the reverse conversion, the example document, and
  the lemmas relating them.

The source writes its warning to a log. Here each operation that checks extras
returns a `Finished(value, warning)` pair, so whether a warning fires and what
it says can be stated and proved.

`RpcConfig::finish` takes the document by value, empties its `extra` table in
place and returns it. No one else can observe the document, so it is modelled
as a function that returns the document with an empty `extra` table.

The top-level `RpcConfig::finish` does not finish the transactions layer. It
returns the layer unchanged, and the caller must finish it separately against
its own baseline. The model proves that the transactions layer passes
through untouched (`FinishRpc`).

## Model

| member | source | states |
|---|---|---|
| `Toml.EmptyTable` | crates/sui-indexer-alt-jsonrpc/src/config.rs:62 | the default table holds no key |
| `Toml.KeyCount` | crates/sui-indexer-alt-jsonrpc/src/config.rs:69-73 | a table's length (`len()`) equals the number of distinct keys it holds, because a table holds each key once |
| `Config.CheckExtra` | crates/sui-indexer-alt-jsonrpc/src/config.rs:67-77 | a warning is emitted exactly when some unrecognised key is present; it carries the scope, the fields and their count, and its suffix is "" exactly for one field and "s" otherwise |
| `Config.FinishTransactions` | crates/sui-indexer-alt-jsonrpc/src/config.rs:47-54 | a field set in the layer wins over the baseline whatever the baseline holds; a field left out takes the baseline's value; a warning at the "transactions" scope fires exactly when the layer has unrecognised keys |
| `Config.FromConfig` | crates/sui-indexer-alt-jsonrpc/src/config.rs:57-65 | the layer built from resolved settings sets both fields, has no unrecognised key, and finishes back to exactly those settings, with no warning, against every baseline |
| `Config.Example` | crates/sui-indexer-alt-jsonrpc/src/config.rs:31-39 | the example has no unrecognised key at either level, its transactions layer sets both fields to the built-in defaults, and it finishes to the defaults against every baseline |
| `Config.FinishRpc` | crates/sui-indexer-alt-jsonrpc/src/config.rs:41-44 | the result has no top-level unrecognised key and the same transactions layer as the input; a warning at the "top-level" scope fires exactly when the input had top-level unrecognised keys |
| `Config.FieldsIndependent` | crates/sui-indexer-alt-jsonrpc/src/config.rs:50-53 | each resolved field depends only on the same field of the layer and of the baseline, so overriding one field never disturbs the other |
| `Config.ExtrasIgnored` | crates/sui-indexer-alt-jsonrpc/src/config.rs:48-54 | two layers that differ only in their unrecognised keys resolve to the same settings against the same baseline |
| `Config.CompleteLayerRoundTrip` | crates/sui-indexer-alt-jsonrpc/src/config.rs:57-65 | a layer that sets every field and has no unrecognised key equals the layer built from the settings it resolves to (the other direction of the round trip) |
| `Config.FinishRpcIdempotent` | crates/sui-indexer-alt-jsonrpc/src/config.rs:41-44 | finishing the top level twice gives the result of finishing it once, and the second pass emits no warning |
| `Config.PartialOverrideScenario` | crates/sui-indexer-alt-jsonrpc/src/config.rs:48-54 | with baseline (50, 100) and a layer that sets only the default page size to 20 and has one unknown key "foo", the result is (20, 100) with one singular warning at the "transactions" scope naming "foo" |
| `Config.EmptyLayerScenario` | crates/sui-indexer-alt-jsonrpc/src/config.rs:48-54 | a layer with no field set and no unknown key resolves to the baseline exactly and emits no warning |

## Left out

- The log sink and the warning's message text (config.rs:70-75). The model keeps only whether a warning fires, its scope, the plural suffix and the table of fields. How the table is rendered is not modelled. `Warning.count` is the model's own record of the table's `len()`, which the source uses only to choose the suffix (config.rs:73); it is not part of the logged text.
- TOML parsing and serde deserialisation, including how `#[serde(flatten)]` routes unknown keys into `extra` and what the `#[DefaultConfig]` attribute generates. Layers are taken as already built. The model therefore does not state that the keys of `extra` are disjoint from the known field names; that is a property of the deserialiser.
- The values of `TransactionsConfig::default()`. They live in the transactions API module, which is not part of this model, so `DefaultTransactions` is an unspecified constant.
- The width of `usize`. The merge does no arithmetic, so page sizes are unbounded naturals.
- The order of the two effects inside `TransactionsLayer::finish` (warn, then build the result). They are independent, so the model returns both together.
