/**
 * The record store and the two handlers of src/app/api/cadastro/route.ts.
 * The store runs in one of two modes, fixed when it is created (the
 * `NODE_ENV === 'production'` test): in production the records live in the
 * module-level list `cadastrosEmMemoria`; otherwise every request reads the
 * whole data file and a POST writes the whole list back. File I/O outcomes
 * are parameters (`readOk`, `writeOk`), so every combination of success and
 * failure is covered; `file` stands for the list the file last received.
 */
module CadastroStore {
  import opened Wrappers
  import opened JsonValue
  import opened Text
  import opened CadastroSchema

  /** A POST response: 201 with the record, 400 with the issues, 500 otherwise. */
  datatype Resposta = Criado(data: Cadastro) | DadosInvalidos(errors: set<Field>) | ErroInterno {
    function Status(): int {
      match this
      case Criado(_) => 201
      case DadosInvalidos(_) => 400
      case ErroInterno => 500
    }
  }

  /** The GET response body: the count, the mode and the list. */
  datatype Listagem = Listagem(totalCadastros: nat, production: bool, cadastros: seq<Cadastro>)

  ghost predicate DistinctIds(s: seq<Cadastro>) {
    forall i, j :: 0 <= i < j < |s| ==> s[i].id != s[j].id
  }

  /** Every id is the decimal rendering of a clock value below `t`. */
  ghost predicate StampedBefore(s: seq<Cadastro>, t: nat) {
    forall i :: 0 <= i < |s| ==> s[i].id == NatToString(ParseDecimal(s[i].id)) && ParseDecimal(s[i].id) < t
  }

  ghost predicate AllValid(s: seq<Cadastro>) {
    forall i :: 0 <= i < |s| ==> ValidDados(s[i].dados)
  }

  /** The record a successful POST builds: the clock as the id, the validated fields, the timestamp. */
  function NovoCadastro(d: Dados<bool>, now: nat, isoNow: string): (c: Cadastro)
    ensures c.dados == d && c.dataCadastro == isoNow
    ensures ParseDecimal(c.id) == now && IsDigits(c.id)
    ensures |c.id| >= 1 && (|c.id| > 1 ==> c.id[0] != '0')
  {
    ParseDecimalInverts(now);
    Cadastro(NatToString(now), d, isoNow)
  }

  /** Appending a record stamped with a clock value strictly after every earlier stamp keeps ids unique. */
  lemma {:induction false} AppendKeepsIdsUnique(s: seq<Cadastro>, c: Cadastro, t: nat, now: nat)
    requires DistinctIds(s) && StampedBefore(s, t) && t <= now
    requires c.id == NatToString(now)
    ensures DistinctIds(s + [c]) && StampedBefore(s + [c], now + 1)
  {
    ParseDecimalInverts(now);
    var s' := s + [c];
    forall i, j | 0 <= i < j < |s'| ensures s'[i].id != s'[j].id {
      if j == |s| {
        assert ParseDecimal(s[i].id) < now;
      }
    }
  }

  class Store {
    const production: bool
    var memory: seq<Cadastro>
    var file: seq<Cadastro>

    /** A fresh process: the memory list is empty; the file holds whatever it held. */
    constructor (production: bool, file: seq<Cadastro>)
      ensures this.production == production && memory == [] && this.file == file
    {
      this.production := production;
      memory := [];
      this.file := file;
    }

    /**
     * What `readCadastros` returns in this state: one of the two stored lists
     * or nothing, and in production the memory list whether or not a read
     * would have failed.
     */
    function Visible(readOk: bool): (r: seq<Cadastro>)
      reads this
      ensures r == memory || r == file || r == []
      ensures production ==> r == memory
    {
      if production then memory else if readOk then file else []
    }

    /** Ids are unique and stamped before `t`, in both places records are kept. */
    ghost predicate IdsUnique(t: nat)
      reads this
    {
      DistinctIds(memory) && DistinctIds(file) && StampedBefore(memory, t) && StampedBefore(file, t)
    }

    ghost predicate RecordsValid()
      reads this
    {
      AllValid(memory) && AllValid(file)
    }

    /** `readCadastros`: the memory list in production; the file, or an empty list when reading fails. */
    method ReadCadastros(readOk: bool) returns (list: seq<Cadastro>)
      ensures production ==> list == memory
      ensures !production && readOk ==> list == file
      ensures !production && !readOk ==> list == []
    {
      if production {
        return memory;
      }
      if readOk {
        list := file;
      } else {
        list := [];
      }
    }

    /** `saveCadastros`: the memory list in production; the file, or the memory list when writing fails. */
    method SaveCadastros(list: seq<Cadastro>, writeOk: bool)
      modifies this
      ensures production || !writeOk ==> memory == list && file == old(file)
      ensures !production && writeOk ==> file == list && memory == old(memory)
    {
      if production {
        memory := list;
        return;
      }
      if writeOk {
        file := list;
      } else {
        memory := list;
      }
    }

    /**
     * `POST`: a body that is not JSON is a 500, a body the schema rejects is a
     * 400 and changes nothing; otherwise the new record goes at the end of the
     * list just read, which is saved, and the answer is 201 with that record.
     */
    method Post(body: Option<Json>, now: nat, isoNow: string, readOk: bool, writeOk: bool)
      returns (resp: Resposta)
      modifies this
      ensures body.None? ==> resp == ErroInterno
      ensures resp.Status() == 500 <==> body.None?
      ensures resp.Status() == 400 <==> body.Some? && ParseCadastro(body.value).Err?
      ensures resp.Status() == 201 <==> body.Some? && ParseCadastro(body.value).Ok?
      ensures body.Some? && ParseCadastro(body.value).Err? ==>
                resp == DadosInvalidos(ParseCadastro(body.value).error)
      ensures body.Some? && ParseCadastro(body.value).Ok? ==>
                resp == Criado(NovoCadastro(ParseCadastro(body.value).value, now, isoNow))
      ensures !resp.Criado? ==> memory == old(memory) && file == old(file)
      ensures resp.Criado? && (production || !writeOk) ==>
                memory == old(Visible(readOk)) + [resp.data] && file == old(file)
      ensures resp.Criado? && !production && writeOk ==>
                file == old(Visible(readOk)) + [resp.data] && memory == old(memory)
      ensures resp.Criado? && (production || writeOk) ==> Visible(true) == old(Visible(readOk)) + [resp.data]
      ensures resp.Criado? && !production && !writeOk ==> Visible(true) == old(Visible(true))
      ensures old(IdsUnique(now)) ==> IdsUnique(now + 1)
      ensures old(RecordsValid()) ==> RecordsValid()
    {
      if body.None? {
        return ErroInterno;
      }
      var parsed := ParseCadastro(body.value);
      if parsed.Err? {
        return DadosInvalidos(parsed.error);
      }
      var novo := NovoCadastro(parsed.value, now, isoNow);
      var existentes := ReadCadastros(readOk);
      ghost var before := existentes;
      existentes := existentes + [novo];
      if old(IdsUnique(now)) {
        AppendKeepsIdsUnique(before, novo, now, now);
      }
      SaveCadastros(existentes, writeOk);
      resp := Criado(novo);
    }

    /** `GET`: the list a read returns, with its length as `totalCadastros`; nothing changes. */
    method Get(readOk: bool) returns (l: Listagem)
      ensures l.cadastros == Visible(readOk)
      ensures l.totalCadastros == |l.cadastros|
      ensures l.production == production
    {
      var dados := ReadCadastros(readOk);
      l := Listagem(|dados|, production, dados);
    }
  }

  /** Two GETs with no POST between them answer alike, unless a development-mode read failed in one only. */
  method GetTwice(store: Store, readOk1: bool, readOk2: bool) returns (a: Listagem, b: Listagem)
    ensures store.production || readOk1 == readOk2 ==> a == b
    ensures a.totalCadastros == |a.cadastros| && b.totalCadastros == |b.cadastros|
  {
    a := store.Get(readOk1);
    b := store.Get(readOk2);
  }

  /** In production a GET right after a successful POST ends with the new record, after the earlier ones. */
  method PostThenGet(store: Store, body: Option<Json>, now: nat, isoNow: string)
    returns (resp: Resposta, l: Listagem)
    requires store.production
    modifies store
    ensures resp.Criado? <==> body.Some? && ParseCadastro(body.value).Ok?
    ensures resp.Criado? ==> l.cadastros == old(store.memory) + [resp.data]
    ensures !resp.Criado? ==> l.cadastros == old(store.memory)
  {
    resp := store.Post(body, now, isoNow, true, true);
    l := store.Get(true);
  }
}
