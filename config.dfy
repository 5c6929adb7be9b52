/**
  The layered configuration of the JSON-RPC indexer service.

  A layer is a partially specified record read from a configuration document:
  every known field is optional, and every key of the document that matches no
  known field is kept in an `extra` table. Finishing a layer against a fully
  specified baseline resolves each field on its own (the layer's value when it
  has one, the baseline's otherwise) and reports the unrecognised keys as a
  warning instead of failing.

  The warning the source writes to its log is returned here as a value.
*/
module Config {
  import opened Wrappers
  import opened Toml

  /** The fully resolved settings of the transaction RPC methods. */
  datatype TransactionsConfig = TransactionsConfig(defaultPageSize: nat, maxPageSize: nat)

  /**
    The built-in defaults of the transaction RPC methods. Their values belong to
    the transactions API module, which is not part of this model, so they are
    left unspecified.
  */
  const DefaultTransactions: TransactionsConfig

  /** The transactions section of a configuration document. */
  datatype TransactionsLayer = TransactionsLayer(
    defaultPageSize: Option<nat>,
    maxPageSize: Option<nat>,
    extra: Table)

  /** The whole configuration document. */
  datatype RpcConfig = RpcConfig(transactions: TransactionsLayer, extra: Table)

  /**
    A warning about unrecognised fields: where they were found, the plural
    suffix of the word "field", and the fields themselves, which the logged
    text renders. `count` records the table's length, from which the suffix
    is chosen; the logged text does not print it.
  */
  datatype Warning = Warning(scope: string, count: nat, suffix: string, fields: Table)

  /** A result together with the warning its computation emitted, if any. */
  datatype Finished<T> = Finished(value: T, warning: Option<Warning>)

  const TopLevelScope: string := "top-level"
  const TransactionsScope: string := "transactions"

  /**
    The extras check (`check_extra`): a warning is emitted exactly when the
    table holds some unrecognised key; it names the scope, counts the keys and
    says "field" for exactly one of them and "fields" otherwise.
  */
  function CheckExtra(pos: string, extra: Table): (w: Option<Warning>)
    ensures w.None? <==> Keys(extra) == {}
    ensures w.Some? ==> w.value.scope == pos && w.value.fields == extra
    ensures w.Some? ==> w.value.count == |Keys(extra)|
    ensures w.Some? ==> (w.value.suffix == "" <==> |Keys(extra)| == 1)
    ensures w.Some? ==> (w.value.suffix == "s" <==> |Keys(extra)| != 1)
  {
    KeyCount(extra);
    if !IsEmpty(extra) then
      Some(Warning(pos, Len(extra), if Len(extra) != 1 then "s" else "", extra))
    else
      None
  }

  /**
    Merging the transactions section against a baseline
    (`TransactionsLayer::finish`): every field the layer sets wins, every field
    it leaves out falls back to the baseline, and the unrecognised keys only
    produce a warning at the "transactions" scope.
  */
  function FinishTransactions(layer: TransactionsLayer, base: TransactionsConfig): (r: Finished<TransactionsConfig>)
    ensures layer.defaultPageSize.None? ==> r.value.defaultPageSize == base.defaultPageSize
    ensures layer.defaultPageSize.Some? ==> r.value.defaultPageSize == layer.defaultPageSize.value
    ensures layer.maxPageSize.None? ==> r.value.maxPageSize == base.maxPageSize
    ensures layer.maxPageSize.Some? ==> r.value.maxPageSize == layer.maxPageSize.value
    ensures r.warning.Some? <==> Keys(layer.extra) != {}
    ensures r.warning.Some? ==> r.warning.value.scope == TransactionsScope && r.warning.value.fields == layer.extra
  {
    var warning := CheckExtra(TransactionsScope, layer.extra);
    Finished(
      TransactionsConfig(
        layer.defaultPageSize.UnwrapOr(base.defaultPageSize),
        layer.maxPageSize.UnwrapOr(base.maxPageSize)),
      warning)
  }

  /**
    Turning resolved settings back into a layer
    (`From<TransactionsConfig> for TransactionsLayer`): every field is set, no
    key is unrecognised, and finishing the layer gives back exactly the
    settings, silently, whatever the baseline.
  */
  function FromConfig(config: TransactionsConfig): (layer: TransactionsLayer)
    ensures layer.defaultPageSize.Some? && layer.maxPageSize.Some?
    ensures Keys(layer.extra) == {}
    ensures forall base :: FinishTransactions(layer, base) == Finished(config, None)
  {
    TransactionsLayer(Some(config.defaultPageSize), Some(config.maxPageSize), EmptyTable())
  }

  /**
    The example document (`RpcConfig::example`): no unrecognised top-level key,
    and a transactions section that sets every field to its built-in default,
    so that it resolves to the defaults against any baseline.
  */
  function Example(): (cfg: RpcConfig)
    ensures Keys(cfg.extra) == {}
    ensures Keys(cfg.transactions.extra) == {}
    ensures cfg.transactions.defaultPageSize == Some(DefaultTransactions.defaultPageSize)
    ensures cfg.transactions.maxPageSize == Some(DefaultTransactions.maxPageSize)
    ensures forall base :: FinishTransactions(cfg.transactions, base) == Finished(DefaultTransactions, None)
  {
    RpcConfig(FromConfig(DefaultTransactions), EmptyTable())
  }

  /**
    Finishing the whole document (`RpcConfig::finish`): the top-level
    unrecognised keys are reported at the "top-level" scope and removed; the
    transactions section is passed on untouched, still to be finished on its own.
  */
  function FinishRpc(cfg: RpcConfig): (r: Finished<RpcConfig>)
    ensures Keys(r.value.extra) == {}
    ensures r.value.transactions == cfg.transactions
    ensures r.warning.Some? <==> Keys(cfg.extra) != {}
    ensures r.warning.Some? ==> r.warning.value.scope == TopLevelScope && r.warning.value.fields == cfg.extra
  {
    var warning := CheckExtra(TopLevelScope, cfg.extra);
    Finished(cfg.(extra := EmptyTable()), warning)
  }

  /** Each resolved field depends only on that field of the layer and of the baseline. */
  lemma FieldsIndependent(l1: TransactionsLayer, l2: TransactionsLayer, b1: TransactionsConfig, b2: TransactionsConfig)
    ensures l1.defaultPageSize == l2.defaultPageSize && b1.defaultPageSize == b2.defaultPageSize ==>
      FinishTransactions(l1, b1).value.defaultPageSize == FinishTransactions(l2, b2).value.defaultPageSize
    ensures l1.maxPageSize == l2.maxPageSize && b1.maxPageSize == b2.maxPageSize ==>
      FinishTransactions(l1, b1).value.maxPageSize == FinishTransactions(l2, b2).value.maxPageSize
  {
  }

  /** Two layers that differ only in their unrecognised keys resolve to the same settings. */
  lemma ExtrasIgnored(l1: TransactionsLayer, l2: TransactionsLayer, base: TransactionsConfig)
    requires l1.defaultPageSize == l2.defaultPageSize && l1.maxPageSize == l2.maxPageSize
    ensures FinishTransactions(l1, base).value == FinishTransactions(l2, base).value
  {
  }

  /**
    The reverse direction of the round trip: a layer that sets every field and
    holds no unrecognised key is the layer of the settings it resolves to.
  */
  lemma CompleteLayerRoundTrip(layer: TransactionsLayer, base: TransactionsConfig)
    requires layer.defaultPageSize.Some? && layer.maxPageSize.Some?
    requires Keys(layer.extra) == {}
    ensures FromConfig(FinishTransactions(layer, base).value) == layer
  {
  }

  /** Finishing the whole document twice is finishing it once, and the second pass warns about nothing. */
  lemma FinishRpcIdempotent(cfg: RpcConfig)
    ensures FinishRpc(FinishRpc(cfg).value) == Finished(FinishRpc(cfg).value, None)
  {
  }

  /**
    A layer that overrides only the default page size and carries one unknown
    key: the override wins, the maximum falls back, and one singular warning
    names the key.
  */
  lemma PartialOverrideScenario()
    ensures
      var extra: Table := [("foo", String("bar"))];
      var layer := TransactionsLayer(Some(20), None, extra);
      FinishTransactions(layer, TransactionsConfig(50, 100))
        == Finished(TransactionsConfig(20, 100), Some(Warning(TransactionsScope, 1, "", extra)))
  {
  }

  /** An empty layer resolves to the baseline exactly and emits no warning. */
  lemma EmptyLayerScenario(base: TransactionsConfig)
    ensures FinishTransactions(TransactionsLayer(None, None, EmptyTable()), base) == Finished(base, None)
  {
  }
}

