/**
 * The legacy twin of the PIR module. Its data model, validators, connectivity check,
 * acyclicity search, flattening and package validation are those of the PIR module
 * word for word (modelled once, in `Pir`, `Acyclicity`, `Validation` and `Flatten`);
 * what differs is the entrypoint check of a node.
 */
module LegacyGraph {
  import opened Wrappers
  import opened Pir

  // `re.compile` of the handler pattern: compiling a constant pattern yields a pattern
  // object, never `None`.
  function HandlerPattern(): Option<string> {
    Some("^(.*/)?([^:]*):([^:]*)$")
  }

  /**
   * `Entrypoint.validate`: raises "malformed handler" only when the compiled pattern is
   * `None`; the handler string itself is never matched against it.
   */
  function ValidateEntrypoint(e: Entrypoint): (r: Outcome<Error>)
    ensures r.Pass?
  {
    if HandlerPattern().None? then Fail(MalformedHandler(e.handler)) else Pass
  }

  /**
   * `Node.validate`: each input, input names, each output (fields only), output names,
   * then the entrypoint under "entrypoint: " and the framework (fields only).
   */
  function ValidateNode(n: Node): (r: Outcome<Error>)
    ensures r == Pir.ValidateNode(n)
    ensures r.Pass? <==> PortsValid(n.inputs, n.outputs)
  {
    PortsCheckPass(n.inputs, n.outputs);
    var entry := ValidateEntrypoint(n.entrypoint);
    var prefixed := match entry case Fail(err) => Fail(Wrap(EntrypointCtx, err)) case Pass => Pass;
    Then(PortsCheck(n.inputs, n.outputs), prefixed)
  }
}
