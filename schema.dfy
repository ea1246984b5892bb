/**
 * The registration schema (`cadastroSchema` in src/app/api/cadastro/route.ts)
 * and the stored record type. The browser form's schema (`formSchema` in
 * src/app/page.tsx) is the same object schema except for the rule on
 * `motorista`, so both are one engine here, selected by a `MotoristaRule`.
 */
module CadastroSchema {
  import opened Wrappers
  import opened JsonValue

  /** A field the schema can report an issue on; `Root` is the body as a whole. */
  datatype Field = Root | NomeCompleto | Idade | Celular | Motorista | Disponibilidade | Instrumento | Congregacao

  /** The keys of the object schema; every other key of a body is stripped. */
  const SchemaKeys: set<string> :=
    {"nomeCompleto", "idade", "celular", "motorista", "disponibilidade", "instrumento", "congregacao"}

  /** `z.enum(["ambos", "sabado", "domingo"])`. */
  const Disponibilidades: set<string> := {"ambos", "sabado", "domingo"}

  /** `z.boolean()` on the server, `z.string()` in the browser form. */
  datatype MotoristaRule = BooleanRule | StringRule

  /** The validated fields, with `motorista` of type `M` (bool on the server, string in the form). */
  datatype Dados<M> = Dados(
    nomeCompleto: string,
    idade: int,
    celular: string,
    motorista: M,
    disponibilidade: string,
    instrumento: Option<string>,
    congregacao: string)

  /** A stored registration: the validated fields plus the two server-assigned ones. */
  datatype Cadastro = Cadastro(id: string, dados: Dados<bool>, dataCadastro: string)

  function Lookup(m: map<string, Json>, k: string): Option<Json> {
    if k in m then Some(m[k]) else None
  }

  predicate StringMin(m: map<string, Json>, k: string, min: nat) {
    k in m && m[k].JStr? && |m[k].s| >= min
  }

  /** The fields an object body is checked on: all but `Root`. */
  const Fields: set<Field> := {NomeCompleto, Idade, Celular, Motorista, Disponibilidade, Instrumento, Congregacao}

  /** The body key a field's rule reads; `Root` reads none. */
  function Key(f: Field): (k: string)
    ensures f != Root ==> k in SchemaKeys
  {
    match f
    case Root => ""
    case NomeCompleto => "nomeCompleto"
    case Idade => "idade"
    case Celular => "celular"
    case Motorista => "motorista"
    case Disponibilidade => "disponibilidade"
    case Instrumento => "instrumento"
    case Congregacao => "congregacao"
  }

  /**
   * Whether one field of an object body passes its rule. Every field but
   * `instrumento` is required and `instrumento` may be absent.
   */
  predicate FieldOk(rule: MotoristaRule, m: map<string, Json>, f: Field)
    ensures FieldOk(rule, m, f) && f != Root && f != Instrumento ==> Key(f) in m
    ensures f == Instrumento && Key(f) !in m ==> FieldOk(rule, m, f)
  {
    match f
    case Root => true
    case NomeCompleto => StringMin(m, "nomeCompleto", 3)
    case Idade => "idade" in m && m["idade"].JNum? && 1 <= m["idade"].n <= 120
    case Celular => StringMin(m, "celular", 10)
    case Motorista =>
      "motorista" in m &&
      (match rule
       case BooleanRule => m["motorista"].JBool?
       case StringRule => m["motorista"].JStr?)
    case Disponibilidade =>
      "disponibilidade" in m && m["disponibilidade"].JStr? && m["disponibilidade"].s in Disponibilidades
    case Instrumento => "instrumento" !in m || m["instrumento"].JStr?
    case Congregacao => StringMin(m, "congregacao", 1)
  }

  /** `null` passes no field's rule, not even the optional `instrumento`. */
  lemma NullRejected(rule: MotoristaRule, m: map<string, Json>, f: Field)
    requires f != Root && Key(f) in m && m[Key(f)] == JNull
    ensures !FieldOk(rule, m, f)
  {
  }

  /**
   * The issues an object schema reports: every field is checked, so every
   * violated field is reported, not only the first; a body that is not an
   * object gets a single issue on the root.
   */
  function Issues(rule: MotoristaRule, body: Json): (r: set<Field>)
    ensures Root in r <==> !body.JObj?
    ensures forall f :: f != Root ==> (f in r <==> body.JObj? && !FieldOk(rule, body.fields, f))
  {
    if !body.JObj? then {Root}
    else set f | f in Fields && !FieldOk(rule, body.fields, f)
  }

  /** The constraints a validated record satisfies, whatever the type of `motorista`. */
  predicate ValidDados<M>(d: Dados<M>) {
    && |d.nomeCompleto| >= 3
    && 1 <= d.idade <= 120
    && |d.celular| >= 10
    && d.disponibilidade in Disponibilidades
    && |d.congregacao| >= 1
  }

  /** Reads the schema's fields out of an object whose issues are all about `motorista` at most. */
  function Extract<M>(m: map<string, Json>, motorista: M): (d: Dados<M>)
    requires Issues(BooleanRule, JObj(m)) <= {Motorista}
    ensures ValidDados(d) && d.motorista == motorista
    ensures Lookup(m, "nomeCompleto") == Some(JStr(d.nomeCompleto))
    ensures Lookup(m, "idade") == Some(JNum(d.idade))
    ensures Lookup(m, "celular") == Some(JStr(d.celular))
    ensures Lookup(m, "disponibilidade") == Some(JStr(d.disponibilidade))
    ensures Lookup(m, "congregacao") == Some(JStr(d.congregacao))
    ensures Lookup(m, "instrumento") == (if d.instrumento.Some? then Some(JStr(d.instrumento.value)) else None)
  {
    assert FieldOk(BooleanRule, m, NomeCompleto) && FieldOk(BooleanRule, m, Idade);
    assert FieldOk(BooleanRule, m, Celular) && FieldOk(BooleanRule, m, Disponibilidade);
    assert FieldOk(BooleanRule, m, Instrumento) && FieldOk(BooleanRule, m, Congregacao);
    Dados(
      m["nomeCompleto"].s,
      m["idade"].n,
      m["celular"].s,
      motorista,
      m["disponibilidade"].s,
      if "instrumento" in m then Some(m["instrumento"].s) else None,
      m["congregacao"].s)
  }

  /** The object a record serialises to; an absent `instrumento` is an absent key. */
  function Encode(d: Dados<bool>): (j: Json)
    ensures j.JObj? && j.fields.Keys <= SchemaKeys
    ensures "instrumento" in j.fields <==> d.instrumento.Some?
  {
    JObj(map[
      "nomeCompleto" := JStr(d.nomeCompleto),
      "idade" := JNum(d.idade),
      "celular" := JStr(d.celular),
      "motorista" := JBool(d.motorista),
      "disponibilidade" := JStr(d.disponibilidade),
      "congregacao" := JStr(d.congregacao)]
      + (if d.instrumento.Some? then map["instrumento" := JStr(d.instrumento.value)] else map[]))
  }

  /**
   * `cadastroSchema.parse(body)`: the record when every field passes, else
   * the full set of failing fields. The record is the body's schema keys and
   * nothing else.
   */
  function ParseCadastro(body: Json): (r: Result<Dados<bool>, set<Field>>)
    ensures r.Ok? <==> body.JObj? && forall f :: FieldOk(BooleanRule, body.fields, f)
    ensures r.Err? ==> r.error == Issues(BooleanRule, body) && r.error != {}
    ensures r.Ok? ==> ValidDados(r.value)
    ensures r.Ok? ==> forall k :: k in SchemaKeys ==> Lookup(body.fields, k) == Lookup(Encode(r.value).fields, k)
  {
    var issues := Issues(BooleanRule, body);
    if issues != {} then
      assert issues == {Root} || exists f :: f != Root && f in issues;
      Err(issues)
    else
      assert FieldOk(BooleanRule, body.fields, Motorista);
      Ok(Extract(body.fields, body.fields["motorista"].b))
  }

  /** Parsing what a valid record serialises to gives the record back. */
  lemma ParseEncode(d: Dados<bool>)
    requires ValidDados(d)
    ensures ParseCadastro(Encode(d)) == Ok(d)
  {
    var m := Encode(d).fields;
    assert FieldOk(BooleanRule, m, Motorista);
  }

  /** Keys outside the schema do not affect parsing: a client cannot add `id` or `dataCadastro`. */
  lemma ParseIgnoresUnknownKeys(m: map<string, Json>, k: string, v: Json)
    requires k !in SchemaKeys
    ensures ParseCadastro(JObj(m[k := v])) == ParseCadastro(JObj(m))
  {
    var m' := m[k := v];
    forall f ensures FieldOk(BooleanRule, m', f) == FieldOk(BooleanRule, m, f) { }
    assert Issues(BooleanRule, JObj(m')) == Issues(BooleanRule, JObj(m));
  }
}
