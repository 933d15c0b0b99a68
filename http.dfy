/** The HTTP responder module, whose context executes the "plain" statement kind. */
module HttpModule {
  import opened Errors
  import opened Strings
  import opened Types
  import opened Program
  import opened Execution

  /** The text one body fragment contributes, given how a variable is serialised. */
  function Piece(vars: Variables, fragment: string, serialize: Variable -> Result<string>): Result<string> {
    if StartsWith(fragment, ":") then
      var x :- Lookup(vars, fragment[1..]);
      serialize(x)
    else Ok(fragment)
  }

  /** The payload of a plain body: the fragments' pieces, concatenated in order; the first failure otherwise. */
  function RenderWith(vars: Variables, body: Body, serialize: Variable -> Result<string>): Result<string>
    decreases |body|
  {
    if body == [] then Ok("")
    else
      var p :- Piece(vars, body[0], serialize);
      Prefixed(p, RenderWith(vars, body[1..], serialize))
  }

  /** `valueToString` of a variable (corrected for bounded strings). */
  function Serialize(x: Variable): Result<string> {
    Ok(ValueToString(x.value))
  }

  /** `variable.type.valueToString(variable.value)` as written. */
  function SerializeAsWritten(x: Variable): Result<string> {
    ValueToStringAsWritten(x.typ, x.value)
  }

  /** The payload, every variable serialised by its `valueToString` (corrected for bounded strings). */
  function Render(vars: Variables, body: Body): Result<string> {
    RenderWith(vars, body, Serialize)
  }

  /** The payload as written, where a bounded string variable cannot be serialised. */
  function RenderAsWritten(vars: Variables, body: Body): Result<string> {
    RenderWith(vars, body, SerializeAsWritten)
  }

  function HeaderEvents(headers: seq<Header>): (events: seq<ResponseEvent>)
    ensures |events| == |headers|
    ensures forall i :: 0 <= i < |headers| ==> events[i] == HeaderSet(headers[i].name, headers[i].value)
  {
    if headers == [] then [] else [HeaderSet(headers[0].name, headers[0].value)] + HeaderEvents(headers[1..])
  }

  /** What executing a statement on the HTTP context returns and the calls it makes on the response. */
  datatype HttpStep = HttpStep(result: Outcome, events: seq<ResponseEvent>)

  function HttpEffect(vars: Variables, kind: StatementKind): HttpStep {
    match kind
    case Plain(body, headers, status) =>
      (match Render(vars, body)
       case Err(e) => HttpStep(Err(e), [])
       case Ok(text) => HttpStep(Done, HeaderEvents(headers) + [HeadWritten(status), Ended(Text(text))]))
    case _ => HttpStep(Err(Fault("Error", "invalid mysql statement kind '" + KindName(kind) + "'.")), [])
  }

  // ---------------------------------------------------------------------------------------------

  /** A body without variable references renders to its fragments joined. */
  lemma {:induction false} RenderLiteral(vars: Variables, body: Body)
    requires forall i :: 0 <= i < |body| ==> !StartsWith(body[i], ":")
    ensures Render(vars, body) == Ok(Join(body))
    decreases |body|
  {
    if body != [] {
      RenderLiteral(vars, body[1..]);
      JoinFront(body);
    }
  }

  /** Rendering fails exactly when some fragment names an unbound variable, and then with InvalidState. */
  lemma {:induction false} RenderFailsIff(vars: Variables, body: Body)
    ensures Render(vars, body).Ok? <==>
      forall i :: 0 <= i < |body| && StartsWith(body[i], ":") ==> body[i][1..] in vars
    ensures Render(vars, body).Err? ==> Render(vars, body).error.InvalidState?
    decreases |body|
  {
    if body != [] {
      RenderFailsIff(vars, body[1..]);
      assert forall i :: 1 <= i < |body| ==> body[1..][i - 1] == body[i];
    }
  }

  /** As written, a plain body referring to a `string(5)` variable is a TypeError; corrected, it is the value. */
  lemma BoundedStringInPlainBodyAsWritten()
    ensures var vars := map["name" := Variable(Str(5), StrV("abc"))];
      RenderAsWritten(vars, [":name"]).Err? && Render(vars, [":name"]) == Ok("abc")
  {
    var vars := map["name" := Variable(Str(5), StrV("abc"))];
    assert StartsWith(":name", ":") && ":name"[1..] == "name";
    assert [":name"][0] == ":name" && [":name"][1..] == [];
    assert Piece(vars, ":name", Serialize) == Ok("abc");
    assert Piece(vars, ":name", SerializeAsWritten).Err?;
    assert RenderWith(vars, [], Serialize) == Ok("");
    assert "abc" + "" == "abc";
  }

  // ---------------------------------------------------------------------------------------------

  /** `executePlain`: renders the body, sets the declared headers, writes the status and ends the
      response with the payload; an unresolved variable aborts before the response is touched. */
  method ExecutePlain(ctx: ExecutionContext, body: Body, headers: seq<Header>, status: int) returns (r: Outcome)
    modifies ctx.response
    ensures old(ctx.response.events) <= ctx.response.events
    ensures HttpStep(r, ctx.response.events[|old(ctx.response.events)|..]) == HttpEffect(ctx.variables, Plain(body, headers, status))
  {
    var payload: seq<string> := [];
    assert body[0..] == body;
    assert Join(payload) == "";
    PrefixedEmpty(RenderWith(ctx.variables, body, Serialize));
    for i := 0 to |body|
      invariant ctx.response.events == old(ctx.response.events)
      invariant Render(ctx.variables, body) == Prefixed(Join(payload), RenderWith(ctx.variables, body[i..], Serialize))
    {
      var fragment := body[i];
      assert body[i..][0] == fragment && body[i..][1..] == body[i + 1..];
      ghost var rest := RenderWith(ctx.variables, body[i + 1..], Serialize);
      assert RenderWith(ctx.variables, body[i..], Serialize) ==
        (var p := Piece(ctx.variables, fragment, Serialize); if p.Err? then Err(p.error) else Prefixed(p.value, rest));
      if StartsWith(fragment, ":") {
        var variable :- ctx.GetVariable(fragment[1..]);
        JoinAppend(payload, ValueToString(variable.value));
        PrefixedAssoc(Join(payload), ValueToString(variable.value), rest);
        payload := payload + [ValueToString(variable.value)];
        continue;
      }
      JoinAppend(payload, fragment);
      PrefixedAssoc(Join(payload), fragment, rest);
      payload := payload + [fragment];
    }
    ghost var before := ctx.response.events;
    for i := 0 to |headers|
      invariant ctx.response.events == before + HeaderEvents(headers[..i])
    {
      assert HeaderEvents(headers[..i + 1]) == HeaderEvents(headers[..i]) + [HeaderSet(headers[i].name, headers[i].value)];
      ctx.response.SetHeader(headers[i].name, headers[i].value);
    }
    assert headers[..|headers|] == headers;
    assert body[|body|..] == [];
    assert Render(ctx.variables, body) == Ok(Join(payload) + "");
    assert Join(payload) + "" == Join(payload);
    ctx.response.WriteHead(status);
    ctx.response.End(Text(Join(payload)));
    assert ctx.response.events[|old(ctx.response.events)|..] == HeaderEvents(headers) + [HeadWritten(status), Ended(Text(Join(payload)))];
    return Done;
  }

  /** `executeStatement` of the HTTP context: only "plain" is understood. */
  method ExecuteStatement(ctx: ExecutionContext, kind: StatementKind) returns (r: Outcome)
    modifies ctx.response
    ensures old(ctx.response.events) <= ctx.response.events
    ensures HttpStep(r, ctx.response.events[|old(ctx.response.events)|..]) == HttpEffect(ctx.variables, kind)
  {
    match kind
    case Plain(body, headers, status) =>
      r := ExecutePlain(ctx, body, headers, status);
    case _ =>
      r := Err(Fault("Error", "invalid mysql statement kind '" + KindName(kind) + "'."));
  }
}
