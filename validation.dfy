/**
 * The two write-body schemas and the middleware that applies them: the create
 * schema requires `nome` and `valor`, the update schema takes the same field
 * rules with every field optional. A body that fails is answered with 400 and
 * the list of issues; one that passes goes on to the next handler unchanged.
 */
module Validation {
  import opened Wrappers
  import opened Json
  import opened Api

  const NomeRequiredMessage := "Nome é obrigatório"
  const NomeTooLongMessage := "Nome muito longo"
  const ValorPositiveMessage := "Valor deve ser positivo"

  datatype Schema = CreateSchema | UpdateSchema

  /** `z.string().min(1).max(255)`: a string, no coercion, length within bounds. */
  predicate NomeOk(v: Json)
  {
    v.JStr? && MinNomeLength <= |v.str| <= MaxNomeLength
  }

  /** `z.number().positive()`: a number, no coercion, strictly greater than zero. */
  predicate ValorOk(v: Json)
  {
    v.JNum? && v.num > 0.0
  }

  /** The rule for one of the two schema fields: a present field must meet its rule; an absent one is allowed only by the update schema. */
  predicate FieldAccepted(schema: Schema, fields: map<string, Json>, key: string)
  {
    if key in fields then
      (if key == "nome" then NomeOk(fields[key]) else ValorOk(fields[key]))
    else
      schema == UpdateSchema
  }

  /** The schema read as a predicate: the body is an object and both fields meet their rules. Other keys play no part. */
  predicate Accepts(schema: Schema, body: Json)
  {
    body.JObj? && FieldAccepted(schema, body.fields, "nome") && FieldAccepted(schema, body.fields, "valor")
  }

  function NomeIssues(schema: Schema, v: Option<Json>): seq<Issue>
  {
    match v
    case None => if schema == CreateSchema then [Issue(["nome"], Missing)] else []
    case Some(JStr(s)) =>
      if |s| < MinNomeLength then [Issue(["nome"], TooSmall(NomeRequiredMessage))]
      else if |s| > MaxNomeLength then [Issue(["nome"], TooBig(NomeTooLongMessage))]
      else []
    case Some(_) => [Issue(["nome"], WrongType)]
  }

  function ValorIssues(schema: Schema, v: Option<Json>): seq<Issue>
  {
    match v
    case None => if schema == CreateSchema then [Issue(["valor"], Missing)] else []
    case Some(JNum(x)) => if x <= 0.0 then [Issue(["valor"], TooSmall(ValorPositiveMessage))] else []
    case Some(_) => [Issue(["valor"], WrongType)]
  }

  /** True when some issue in the list is reported at `path`. */
  predicate HasIssueAt(issues: seq<Issue>, path: seq<string>)
  {
    exists i | 0 <= i < |issues| :: issues[i].path == path
  }

  /**
   * The issues `schema.parse(body)` collects, field by field in the schema's
   * order. The list is empty exactly when the schema accepts, and it names a
   * field exactly when that field breaks its rule.
   */
  function ParseIssues(schema: Schema, body: Json): (issues: seq<Issue>)
    ensures issues == [] <==> Accepts(schema, body)
    ensures !body.JObj? ==> issues == [Issue([], WrongType)]
    ensures body.JObj? ==> (HasIssueAt(issues, ["nome"]) <==> !FieldAccepted(schema, body.fields, "nome"))
    ensures body.JObj? ==> (HasIssueAt(issues, ["valor"]) <==> !FieldAccepted(schema, body.fields, "valor"))
    ensures forall i | 0 <= i < |issues| :: issues[i].path in {[], ["nome"], ["valor"]}
  {
    if !body.JObj? then
      [Issue([], WrongType)]
    else
      var nome := NomeIssues(schema, Get(body, "nome"));
      var valor := ValorIssues(schema, Get(body, "valor"));
      assert (nome + valor)[..|nome|] == nome;
      assert ["nome"] != ["valor"];
      assert HasIssueAt(nome + valor, ["nome"]) <==> nome != [] by {
        if nome != [] { assert (nome + valor)[0] == nome[0]; }
      }
      assert HasIssueAt(nome + valor, ["valor"]) <==> valor != [] by {
        if valor != [] { assert (nome + valor)[|nome|] == valor[0]; }
      }
      nome + valor
  }

  /** What a validation middleware does: call `next()`, or answer once and stop. */
  datatype Decision = Next | Reject(response: Response)

  /**
   * `validateCreateProduct` / `validateUpdateProduct`: the body goes on to the
   * next handler exactly when the schema accepts it; otherwise the single
   * response is 400 with the error text and a non-empty list of issues.
   */
  function Validate(schema: Schema, body: Json): (d: Decision)
    ensures d.Next? <==> Accepts(schema, body)
    ensures d.Reject? ==> d.response.status == 400
    ensures d.Reject? ==> d.response.body == ErrorBody(InvalidDataMessage, Issues(ParseIssues(schema, body)))
    ensures d.Reject? ==> |ParseIssues(schema, body)| > 0
  {
    var issues := ParseIssues(schema, body);
    if issues == [] then Next
    else Reject(Response(400, ErrorBody(InvalidDataMessage, Issues(issues))))
  }

  /** The create middleware rejects a body with `nome` missing, with `nome` empty, or with a `valor` that is not positive. */
  lemma CreateRejectsMissingOrEmptyNomeOrNonPositiveValor(body: Json)
    requires body.JObj?
    requires || "nome" !in body.fields
             || body.fields["nome"] == JStr("")
             || (Get(body, "valor").Some? && Get(body, "valor").value.JNum? && Get(body, "valor").value.num <= 0.0)
    ensures Validate(CreateSchema, body).Reject?
    ensures Validate(CreateSchema, body).response.status == 400
    ensures |Validate(CreateSchema, body).response.body.details.issues| > 0
  {
  }

  /** The update middleware lets the empty object through. */
  lemma UpdateAcceptsEmptyBody()
    ensures Validate(UpdateSchema, JObj(map[])) == Next
  {
  }

  /** Every body the create schema accepts the update schema accepts too, and the converse fails. */
  lemma UpdateIsWeakerThanCreate(body: Json)
    ensures Accepts(CreateSchema, body) ==> Accepts(UpdateSchema, body)
    ensures Accepts(UpdateSchema, JObj(map[])) && !Accepts(CreateSchema, JObj(map[]))
  {
  }

  /** Update accepts exactly the objects whose present fields each meet the create rule for that field. */
  lemma UpdateAcceptsPresentFieldRules(fields: map<string, Json>)
    ensures Accepts(UpdateSchema, JObj(fields)) <==>
      ("nome" in fields ==> NomeOk(fields["nome"])) && ("valor" in fields ==> ValorOk(fields["valor"]))
    ensures Validate(UpdateSchema, JObj(map["valor" := JNum(-50.0)])).Reject?
  {
  }

  /** A name of 255 characters passes and one of 256 does not; zero is not a positive value. */
  lemma Boundaries(s: string)
    ensures |s| == 255 ==> NomeOk(JStr(s))
    ensures |s| == 256 ==> !NomeOk(JStr(s))
    ensures |s| == 0 ==> !NomeOk(JStr(s))
    ensures !ValorOk(JNum(0.0))
  {
  }

  /** A field of the wrong JSON type is refused, not coerced: a numeric string is no `valor`, a number is no `nome`. */
  lemma NoCoercion(s: string, x: real, fields: map<string, Json>)
    ensures !ValorOk(JStr(s)) && !NomeOk(JNum(x))
    ensures Validate(CreateSchema, JObj(fields["valor" := JStr(s)])).Reject?
    ensures Validate(UpdateSchema, JObj(fields["nome" := JNum(x)])).Reject?
  {
  }

  /** Keys other than `nome` and `valor` do not change the decision. */
  lemma ExtraKeysIgnored(schema: Schema, fields: map<string, Json>, key: string, v: Json)
    requires key != "nome" && key != "valor"
    ensures Validate(schema, JObj(fields[key := v])) == Validate(schema, JObj(fields))
  {
    assert Get(JObj(fields[key := v]), "nome") == Get(JObj(fields), "nome");
    assert Get(JObj(fields[key := v]), "valor") == Get(JObj(fields), "valor");
  }
}
