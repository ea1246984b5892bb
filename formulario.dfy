/**
 * The browser form of src/app/page.tsx: `formSchema`, which differs from the
 * server's schema only in taking `motorista` as any string, and the
 * conversion in `onSubmit` that turns that string into the boolean the
 * server expects before the payload is sent.
 */
module Formulario {
  import opened Wrappers
  import opened JsonValue
  import opened CadastroSchema

  /** Apart from `motorista`, the form and the server report the same issues on every body. */
  lemma MesmasRegras(body: Json)
    ensures Issues(StringRule, body) - {Motorista} == Issues(BooleanRule, body) - {Motorista}
  {
    if body.JObj? {
      forall f | f != Motorista
        ensures FieldOk(StringRule, body.fields, f) == FieldOk(BooleanRule, body.fields, f)
      {
      }
    }
  }

  /** Any string is an acceptable `motorista` for the form. */
  lemma MotoristaQualquerTexto(m: map<string, Json>, s: string)
    ensures Issues(StringRule, JObj(m["motorista" := JStr(s)])) == Issues(StringRule, JObj(m)) - {Motorista}
  {
    var m' := m["motorista" := JStr(s)];
    forall f | f != Motorista
      ensures FieldOk(StringRule, m', f) == FieldOk(StringRule, m, f)
    {
    }
    assert FieldOk(StringRule, m', Motorista);
  }

  /** `formSchema` through the form's resolver: the form values, or every failing field. */
  function ParseFormulario(body: Json): (r: Result<Dados<string>, set<Field>>)
    ensures r.Ok? <==> body.JObj? && forall f :: FieldOk(StringRule, body.fields, f)
    ensures r.Err? ==> r.error == Issues(StringRule, body) && r.error != {}
    ensures r.Ok? ==> ValidDados(r.value) && Lookup(body.fields, "motorista") == Some(JStr(r.value.motorista))
    ensures r.Ok? ==> forall k :: k in SchemaKeys - {"motorista"} ==> Lookup(body.fields, k) == Lookup(Encode(ParaEnvio(r.value)).fields, k)
  {
    var issues := Issues(StringRule, body);
    if issues != {} then
      assert issues == {Root} || exists f :: f != Root && f in issues;
      Err(issues)
    else
      MesmasRegras(body);
      assert FieldOk(StringRule, body.fields, Motorista);
      Ok(Extract(body.fields, body.fields["motorista"].s))
  }

  /** `{ ...data, motorista: data.motorista === "true" }`. */
  function ParaEnvio(f: Dados<string>): (d: Dados<bool>)
    ensures d.motorista <==> f.motorista == "true"
    ensures d.nomeCompleto == f.nomeCompleto && d.idade == f.idade && d.celular == f.celular
    ensures d.disponibilidade == f.disponibilidade && d.instrumento == f.instrumento
    ensures d.congregacao == f.congregacao
  {
    Dados(f.nomeCompleto, f.idade, f.celular, f.motorista == "true",
          f.disponibilidade, f.instrumento, f.congregacao)
  }

  /** Every value the form accepts, once converted and serialised, passes the server's schema unchanged. */
  lemma FormularioAceitoServidorAceita(body: Json)
    requires ParseFormulario(body).Ok?
    ensures ParseCadastro(Encode(ParaEnvio(ParseFormulario(body).value))) ==
            Ok(ParaEnvio(ParseFormulario(body).value))
  {
    var enviado := ParaEnvio(ParseFormulario(body).value);
    assert ValidDados(enviado);
    ParseEncode(enviado);
  }
}
