/**
  The extraction form's query builder (`createApiPayload`) and the e-mail variant of
  the request. The payload is a sparse JSON object: `addField` writes a key only when
  its value is not `undefined`, `null`, `""` or an empty array, and the builder calls
  it once per key in a fixed order after writing `pagina: 0`.
*/
module SearchPayload {
  import opened Wrappers
  import Text
  import JsNumber
  import Lists

  /** A JSON value; an object keeps its keys in insertion order, as `JSON.stringify` does. */
  datatype Json =
    | JUndefined
    | JNull
    | JBool(b: bool)
    | JNum(n: real)
    | JStr(s: string)
    | JArr(items: seq<Json>)
    | JObj(fields: seq<(string, Json)>)

  /** The values `addField` refuses to write. */
  predicate IsOmitted(v: Json) {
    v.JUndefined? || v.JNull? || v == JStr("") || (v.JArr? && |v.items| == 0)
  }

  /** The keys of an object, in insertion order. */
  function Keys<K>(fields: seq<(K, Json)>): (r: seq<K>)
    ensures |r| == |fields|
    ensures forall i :: 0 <= i < |fields| ==> r[i] == fields[i].0
  {
    seq(|fields|, i requires 0 <= i < |fields| => fields[i].0)
  }

  /** `obj[key]`, `None` standing for an absent key. */
  function Lookup<K(==)>(fields: seq<(K, Json)>, key: K): (r: Option<Json>)
    ensures r.Some? <==> key in Keys(fields)
    decreases |fields|
  {
    if |fields| == 0 then None
    else if fields[0].0 == key then Some(fields[0].1)
    else
      assert Keys(fields) == [fields[0].0] + Keys(fields[1..]);
      Lookup(fields[1..], key)
  }

  /** How `Keys` and `Lookup` see a field placed in front of an object. */
  lemma ConsField<K>(f: (K, Json), rest: seq<(K, Json)>)
    ensures Keys([f] + rest) == [f.0] + Keys(rest)
    ensures forall k :: Lookup([f] + rest, k) == if f.0 == k then Some(f.1) else Lookup(rest, k)
  {
    assert ([f] + rest)[1..] == rest;
    assert Keys([f] + rest) == [f.0] + Keys(rest) by {
      assert forall i :: 0 <= i < |rest| + 1 ==> Keys([f] + rest)[i] == ([f.0] + Keys(rest))[i];
    }
    forall k
      ensures Lookup([f] + rest, k) == if f.0 == k then Some(f.1) else Lookup(rest, k)
    {
      ConsLookup(f, rest, k);
    }
  }

  lemma ConsLookup<K>(f: (K, Json), rest: seq<(K, Json)>, k: K)
    ensures Lookup([f] + rest, k) == if f.0 == k then Some(f.1) else Lookup(rest, k)
  {
    assert ([f] + rest)[1..] == rest;
  }

  /** `obj[key] = v`: an existing key keeps its position and gets the new value, a new key goes last. */
  function Put<K(==,!new)>(fields: seq<(K, Json)>, key: K, v: Json): (r: seq<(K, Json)>)
    ensures Lookup(r, key) == Some(v)
    ensures forall k :: k != key ==> Lookup(r, k) == Lookup(fields, k)
    ensures key in Keys(fields) ==> Keys(r) == Keys(fields)
    ensures key !in Keys(fields) ==> Keys(r) == Keys(fields) + [key]
    decreases |fields|
  {
    if |fields| == 0 then [(key, v)]
    else
      assert fields == [fields[0]] + fields[1..];
      if fields[0].0 == key then
        PutAtHead(fields[0], fields[1..], v);
        [(key, v)] + fields[1..]
      else
        var rest := Put(fields[1..], key, v);
        PutBehindHead(fields[0], fields[1..], rest, key, v);
        [fields[0]] + rest
  }

  /** Overwriting the first field keeps the key order and every other value. */
  lemma PutAtHead<K(!new)>(f: (K, Json), rest: seq<(K, Json)>, v: Json)
    ensures Lookup([(f.0, v)] + rest, f.0) == Some(v)
    ensures forall k :: k != f.0 ==> Lookup([(f.0, v)] + rest, k) == Lookup([f] + rest, k)
    ensures Keys([(f.0, v)] + rest) == Keys([f] + rest)
  {
    ConsField(f, rest);
    ConsField((f.0, v), rest);
  }

  /** Writing behind a different first field: the first field stays, the rest changes as written. */
  lemma PutBehindHead<K(!new)>(f: (K, Json), rest: seq<(K, Json)>, r: seq<(K, Json)>, key: K, v: Json)
    requires f.0 != key
    requires Lookup(r, key) == Some(v)
    requires forall k :: k != key ==> Lookup(r, k) == Lookup(rest, k)
    requires key in Keys(rest) ==> Keys(r) == Keys(rest)
    requires key !in Keys(rest) ==> Keys(r) == Keys(rest) + [key]
    ensures Lookup([f] + r, key) == Some(v)
    ensures forall k :: k != key ==> Lookup([f] + r, k) == Lookup([f] + rest, k)
    ensures key in Keys([f] + rest) ==> Keys([f] + r) == Keys([f] + rest)
    ensures key !in Keys([f] + rest) ==> Keys([f] + r) == Keys([f] + rest) + [key]
  {
    ConsField(f, rest);
    ConsField(f, r);
  }

  /** `addField(key, v)`: writes the field unless the value is one of the omitted ones. */
  function AddField<K(==,!new)>(fields: seq<(K, Json)>, key: K, v: Json): (r: seq<(K, Json)>)
    ensures IsOmitted(v) ==> r == fields
    ensures !IsOmitted(v) ==> Lookup(r, key) == Some(v)
    ensures forall k :: k != key ==> Lookup(r, k) == Lookup(fields, k)
    ensures !IsOmitted(v) && key !in Keys(fields) ==> Keys(r) == Keys(fields) + [key]
  {
    if IsOmitted(v) then fields else Put(fields, key, v)
  }

  /** What a key holds after `addField` offered it `v` once. */
  function Present(v: Json): (r: Option<Json>)
    ensures r.Some? <==> !IsOmitted(v)
    ensures r.Some? ==> r.value == v
  {
    if IsOmitted(v) then None else Some(v)
  }

  /** No field of the object holds an omitted value. */
  predicate NoOmittedValues<K>(fields: seq<(K, Json)>) {
    forall i :: 0 <= i < |fields| ==> !IsOmitted(fields[i].1)
  }

  lemma {:induction false} PutKeepsNoOmitted<K(!new)>(fields: seq<(K, Json)>, key: K, v: Json)
    requires NoOmittedValues(fields) && !IsOmitted(v)
    ensures NoOmittedValues(Put(fields, key, v))
    decreases |fields|
  {
    if |fields| > 0 && fields[0].0 != key {
      PutKeepsNoOmitted(fields[1..], key, v);
    }
  }

  /** `addField` never writes an omitted value and never writes a key twice. */
  lemma AddFieldKeepsWellFormed<K(!new)>(fields: seq<(K, Json)>, key: K, v: Json)
    requires NoOmittedValues(fields) && Lists.NoDuplicates(Keys(fields))
    ensures NoOmittedValues(AddField(fields, key, v))
    ensures Lists.NoDuplicates(Keys(AddField(fields, key, v)))
  {
    if !IsOmitted(v) {
      PutKeepsNoOmitted(fields, key, v);
      if key !in Keys(fields) {
        Lists.AppendFreshKeepsNoDuplicates(Keys(fields), key);
      }
    }
  }

  /** The payload's top-level keys. */
  datatype Key =
    | Pagina | BuscaTextual | CodigoAtividadePrincipal | CodigoNaturezaJuridica | SituacaoCadastral
    | Uf | Municipio | Bairro | Cep | Ddd | DataAbertura | CapitalSocial | Mei | MaisFiltros | Limite

  /** The key as it is spelled in the JSON body. */
  function KeyName(k: Key): string {
    match k
    case Pagina => "pagina"
    case BuscaTextual => "busca_textual"
    case CodigoAtividadePrincipal => "codigo_atividade_principal"
    case CodigoNaturezaJuridica => "codigo_natureza_juridica"
    case SituacaoCadastral => "situacao_cadastral"
    case Uf => "uf"
    case Municipio => "municipio"
    case Bairro => "bairro"
    case Cep => "cep"
    case Ddd => "ddd"
    case DataAbertura => "data_abertura"
    case CapitalSocial => "capital_social"
    case Mei => "mei"
    case MaisFiltros => "mais_filtros"
    case Limite => "limite"
  }

  /** The key a JSON name stands for, if any: the inverse of `KeyName`. */
  function KeyOfName(name: string): (r: Option<Key>)
    ensures r.Some? ==> KeyName(r.value) == name
  {
    if name == "pagina" then Some(Pagina)
    else if name == "busca_textual" then Some(BuscaTextual)
    else if name == "codigo_atividade_principal" then Some(CodigoAtividadePrincipal)
    else if name == "codigo_natureza_juridica" then Some(CodigoNaturezaJuridica)
    else if name == "situacao_cadastral" then Some(SituacaoCadastral)
    else if name == "uf" then Some(Uf)
    else if name == "municipio" then Some(Municipio)
    else if name == "bairro" then Some(Bairro)
    else if name == "cep" then Some(Cep)
    else if name == "ddd" then Some(Ddd)
    else if name == "data_abertura" then Some(DataAbertura)
    else if name == "capital_social" then Some(CapitalSocial)
    else if name == "mei" then Some(Mei)
    else if name == "mais_filtros" then Some(MaisFiltros)
    else if name == "limite" then Some(Limite)
    else None
  }

  /** Every key's JSON name reads back as that key, so no two keys share a name. */
  lemma KeyNameRoundTrip(k: Key)
    ensures KeyOfName(KeyName(k)) == Some(k)
  {
  }

  lemma KeyNameInjective(a: Key, b: Key)
    ensures KeyName(a) == KeyName(b) <==> a == b
  {
    KeyNameRoundTrip(a);
    KeyNameRoundTrip(b);
  }

  /** The filter keys, in the order the builder offers them to `addField`. */
  const FilterKeys: seq<Key> := [
    BuscaTextual, CodigoAtividadePrincipal, CodigoNaturezaJuridica, SituacaoCadastral,
    Uf, Municipio, Bairro, Cep, Ddd, DataAbertura, CapitalSocial]

  /** The keys the builder offers last, after the filters. */
  const TrailingKeys: seq<Key> := [Mei, MaisFiltros, Limite]

  /** The keys after `pagina`, in the order the builder offers them to `addField`. */
  const FieldOrder: seq<Key> := FilterKeys + TrailingKeys

  datatype ResultType = Simples | Completo

  /** The extraction form. Dates are held already formatted as `yyyy-MM-dd`. */
  datatype SearchForm = SearchForm(
    resultType: ResultType,
    companyName: string,
    mainActivity: seq<string>,
    legalNature: seq<string>,
    status: string,
    state: seq<string>,
    city: seq<string>,
    neighborhood: seq<string>,
    zipCode: seq<string>,
    ddd: seq<string>,
    openingDateFrom: Option<string>,
    openingDateTo: Option<string>,
    capitalFrom: string,
    capitalTo: string,
    onlyMei: bool,
    excludeMei: bool,
    onlyMatrix: bool,
    onlyBranch: bool,
    withPhone: bool,
    onlyLandline: bool,
    onlyMobile: bool,
    withEmail: bool,
    limit: string)

  /** The form's default values. */
  const DefaultForm := SearchForm(
    Simples, "", [], [], "", [], [], [], [], [], None, None, "", "",
    false, false, false, false, false, false, false, false, "50")

  const DefaultLimit := 50

  /** `parseInt(limit) || 50`: the parsed number unless it is NaN or 0. */
  function LimitValue(limit: string): (r: int)
    ensures r != 0
    ensures r == DefaultLimit || JsNumber.ParseInt(limit) == Some(r)
    ensures forall n :: JsNumber.ParseInt(limit) == Some(n) && n != 0 ==> r == n
  {
    match JsNumber.ParseInt(limit)
    case Some(n) => if n != 0 then n else DefaultLimit
    case None => DefaultLimit
  }

  /** Typing a non-zero whole number into the limit field gives that limit back, negative ones included. */
  lemma LimitOfNumber(n: int)
    requires n != 0
    ensures LimitValue(JsNumber.IntToString(n)) == n
  {
    JsNumber.ParseIntOfIntToString(n);
  }

  /** An empty or zero limit falls back to 50. */
  lemma LimitFallsBack()
    ensures LimitValue("") == DefaultLimit
    ensures LimitValue(JsNumber.IntToString(0)) == DefaultLimit
  {
    JsNumber.ParseIntOfIntToString(0);
  }

  /** `formatNumber`: 0 for an empty string, otherwise `parseFloat` after the first comma becomes a dot. `None` is NaN. */
  function FormatNumber(value: string, parseFloat: string -> Option<real>): (r: Option<real>)
    ensures value == "" ==> r == Some(0.0)
    ensures value != "" ==> r == parseFloat(Text.ReplaceFirst(value, ',', '.'))
  {
    if value == "" then Some(0.0) else parseFloat(Text.ReplaceFirst(value, ',', '.'))
  }

  /** A capital bound is sent only when it parses to a positive number. */
  predicate PositiveAmount(a: Option<real>) {
    a.Some? && a.value > 0.0
  }

  function Strings(xs: seq<string>): (r: Json)
    ensures IsOmitted(r) <==> |xs| == 0
  {
    JArr(seq(|xs|, i requires 0 <= i < |xs| => JStr(xs[i])))
  }

  /** The single text clause searching the company name in both company-name columns. */
  function TextClause(name: string): Json {
    JObj([
      ("texto", JArr([JStr(name)])),
      ("tipo_busca", JStr("CONTEM")),
      ("razao_social", JBool(true)),
      ("nome_fantasia", JBool(true)),
      ("nome_socio", JBool(false))])
  }

  /** The `data_abertura` object: `inicio` and `fim` for the bounds that are set. */
  function OpeningDates(f: SearchForm): seq<(string, Json)> {
    var a := if f.openingDateFrom.Some? then Put([], "inicio", JStr(f.openingDateFrom.value)) else [];
    if f.openingDateTo.Some? then Put(a, "fim", JStr(f.openingDateTo.value)) else a
  }

  lemma OpeningDatesFacts(f: SearchForm)
    ensures Lookup(OpeningDates(f), "inicio") == if f.openingDateFrom.Some? then Some(JStr(f.openingDateFrom.value)) else None
    ensures Lookup(OpeningDates(f), "fim") == if f.openingDateTo.Some? then Some(JStr(f.openingDateTo.value)) else None
    ensures |OpeningDates(f)| == 0 <==> f.openingDateFrom.None? && f.openingDateTo.None?
  {
  }

  /** The `capital_social` object: `minimo` and `maximo` for the bounds that parse to a positive number. */
  function CapitalRange(f: SearchForm, parseFloat: string -> Option<real>): seq<(string, Json)> {
    var lo := FormatNumber(f.capitalFrom, parseFloat);
    var hi := FormatNumber(f.capitalTo, parseFloat);
    var a := if PositiveAmount(lo) then Put([], "minimo", JNum(lo.value)) else [];
    if PositiveAmount(hi) then Put(a, "maximo", JNum(hi.value)) else a
  }

  lemma CapitalRangeFacts(f: SearchForm, parseFloat: string -> Option<real>)
    ensures var lo := FormatNumber(f.capitalFrom, parseFloat);
      Lookup(CapitalRange(f, parseFloat), "minimo") == if PositiveAmount(lo) then Some(JNum(lo.value)) else None
    ensures var hi := FormatNumber(f.capitalTo, parseFloat);
      Lookup(CapitalRange(f, parseFloat), "maximo") == if PositiveAmount(hi) then Some(JNum(hi.value)) else None
    ensures |CapitalRange(f, parseFloat)| == 0 <==>
      !PositiveAmount(FormatNumber(f.capitalFrom, parseFloat)) && !PositiveAmount(FormatNumber(f.capitalTo, parseFloat))
  {
  }

  function MeiFilter(f: SearchForm): Json {
    JObj([("optante", JBool(f.onlyMei)), ("excluir_optante", JBool(f.excludeMei))])
  }

  function MoreFilters(f: SearchForm): Json {
    JObj([
      ("somente_matriz", JBool(f.onlyMatrix)),
      ("somente_filial", JBool(f.onlyBranch)),
      ("com_email", JBool(f.withEmail)),
      ("com_telefone", JBool(f.withPhone)),
      ("somente_fixo", JBool(f.onlyLandline)),
      ("somente_celular", JBool(f.onlyMobile))])
  }

  /**
    The value the builder offers `addField` for key `k`; `JUndefined` where the builder's
    own `if` skips the call (company name, status, main activity, the two sub-objects).
  */
  function Offered(f: SearchForm, parseFloat: string -> Option<real>, k: Key): Json {
    match k
    case Pagina => JNum(0.0)
    case BuscaTextual => if f.companyName != "" then JArr([TextClause(f.companyName)]) else JUndefined
    case CodigoAtividadePrincipal => if |f.mainActivity| > 0 then Strings(f.mainActivity) else JUndefined
    case CodigoNaturezaJuridica => Strings(f.legalNature)
    case SituacaoCadastral => if f.status != "" then JArr([JStr(f.status)]) else JUndefined
    case Uf => Strings(f.state)
    case Municipio => Strings(f.city)
    case Bairro => Strings(f.neighborhood)
    case Cep => Strings(f.zipCode)
    case Ddd => Strings(f.ddd)
    case DataAbertura =>
      var dates := OpeningDates(f);
      if |dates| > 0 then JObj(dates) else JUndefined
    case CapitalSocial =>
      var capital := CapitalRange(f, parseFloat);
      if |capital| > 0 then JObj(capital) else JUndefined
    case Mei => MeiFilter(f)
    case MaisFiltros => MoreFilters(f)
    case Limite => JNum(LimitValue(f.limit) as real)
  }

  /** Offers each key of `keys` to `addField` in turn, with the value `offer` gives it. */
  function AddAll<K(==,!new)>(p: seq<(K, Json)>, offer: K -> Json, keys: seq<K>): seq<(K, Json)>
    decreases |keys|
  {
    if |keys| == 0 then p
    else AddAll(AddField(p, keys[0], offer(keys[0])), offer, keys[1..])
  }

  /** `createApiPayload(form)`; `parseFloat` is JavaScript's, `None` standing for NaN. */
  function Build(f: SearchForm, parseFloat: string -> Option<real>): seq<(Key, Json)> {
    AddAll([(Pagina, JNum(0.0))], k => Offered(f, parseFloat, k), FieldOrder)
  }

  /** After offering keys in turn, an offered key holds its value when that value is not omitted; otherwise the key is untouched. */
  lemma {:induction false} AddAllLookup<K(!new)>(p: seq<(K, Json)>, offer: K -> Json, keys: seq<K>, k: K)
    requires Lists.NoDuplicates(keys)
    ensures Lookup(AddAll(p, offer, keys), k) == if k in keys && !IsOmitted(offer(k)) then Some(offer(k)) else Lookup(p, k)
    decreases |keys|
  {
    if |keys| > 0 {
      var q := AddField(p, keys[0], offer(keys[0]));
      assert AddAll(p, offer, keys) == AddAll(q, offer, keys[1..]);
      assert Lists.NoDuplicates(keys[1..]);
      AddAllLookup(q, offer, keys[1..], k);
      if k == keys[0] {
        assert k !in keys[1..];
      } else {
        assert k in keys <==> k in keys[1..];
      }
    }
  }

  /** Offering the first of several fresh keys: it is appended when sent, and the remaining keys stay fresh. */
  lemma OfferFirst<K(!new)>(p: seq<(K, Json)>, offer: K -> Json, sent: K -> bool, keys: seq<K>)
    requires forall k :: sent(k) == !IsOmitted(offer(k))
    requires |keys| > 0 && Lists.NoDuplicates(keys)
    requires forall i :: 0 <= i < |keys| ==> keys[i] !in Keys(p)
    ensures var q := AddField(p, keys[0], offer(keys[0]));
      && Keys(q) == Keys(p) + (if sent(keys[0]) then [keys[0]] else [])
      && Lists.NoDuplicates(keys[1..])
      && forall i :: 0 <= i < |keys[1..]| ==> keys[1..][i] !in Keys(q)
  {
    var q := AddField(p, keys[0], offer(keys[0]));
    assert keys[0] !in Keys(p);
    forall i | 0 <= i < |keys[1..]|
      ensures keys[1..][i] !in Keys(q)
    {
      assert keys[1..][i] == keys[i + 1] != keys[0];
    }
  }

  /** Offering fresh keys in turn appends the keys whose values are not omitted (those `sent` accepts), in the order offered. */
  lemma {:induction false} AddAllKeys<K(!new)>(p: seq<(K, Json)>, offer: K -> Json, sent: K -> bool, keys: seq<K>)
    requires forall k :: sent(k) == !IsOmitted(offer(k))
    requires Lists.NoDuplicates(keys)
    requires forall i :: 0 <= i < |keys| ==> keys[i] !in Keys(p)
    ensures Keys(AddAll(p, offer, keys)) == Keys(p) + Lists.Filter(keys, sent)
    decreases |keys|
  {
    if |keys| > 0 {
      var q := AddField(p, keys[0], offer(keys[0]));
      var added := if sent(keys[0]) then [keys[0]] else [];
      var rest := Lists.Filter(keys[1..], sent);
      OfferFirst(p, offer, sent, keys);
      AddAllKeys(q, offer, sent, keys[1..]);
      calc {
        Keys(AddAll(p, offer, keys));
        Keys(AddAll(q, offer, keys[1..]));
        Keys(q) + rest;
        (Keys(p) + added) + rest;
        { Lists.ConcatAssoc(Keys(p), added, rest); }
        Keys(p) + (added + rest);
        { assert Lists.Filter(keys, sent) == added + rest; }
        Keys(p) + Lists.Filter(keys, sent);
      }
    }
  }

  lemma FieldOrderDistinct()
    ensures Lists.NoDuplicates(FieldOrder)
  {
  }

  /** `pagina` is written before the others and is not offered again. */
  lemma OnlyPaginaNotOffered(k: Key)
    ensures k == Pagina <==> k !in FieldOrder
  {
  }

  lemma OfferFieldOrder(p: seq<(Key, Json)>, offer: Key -> Json, k: Key)
    ensures Lookup(AddAll(p, offer, FieldOrder), k) ==
      if k in FieldOrder && !IsOmitted(offer(k)) then Some(offer(k)) else Lookup(p, k)
  {
    FieldOrderDistinct();
    AddAllLookup(p, offer, FieldOrder, k);
  }

  /** Offering the keys of `FieldOrder` after `pagina: 0`, whatever the values offered. */
  lemma {:induction false} OfferedAfterPagina(offer: Key -> Json, k: Key)
    ensures Lookup(AddAll([(Pagina, JNum(0.0))], offer, FieldOrder), k) ==
      if k == Pagina then Some(JNum(0.0)) else Present(offer(k))
  {
    var p := [(Pagina, JNum(0.0))];
    OfferFieldOrder(p, offer, k);
    OnlyPaginaNotOffered(k);
    assert Lookup(p, k) == if k == Pagina then Some(JNum(0.0)) else None;
  }

  /** What each key of the payload holds: `pagina` is 0, every other key its offered value unless that is omitted. */
  lemma BuildLookup(f: SearchForm, parseFloat: string -> Option<real>, k: Key)
    ensures Lookup(Build(f, parseFloat), k) ==
      if k == Pagina then Some(JNum(0.0)) else Present(Offered(f, parseFloat, k))
  {
    OfferedAfterPagina(key => Offered(f, parseFloat, key), k);
  }

  /** Objects built with `addField` hold no omitted value and no key twice. */
  lemma {:induction false} AddAllKeepsWellFormed<K(!new)>(p: seq<(K, Json)>, offer: K -> Json, keys: seq<K>)
    requires NoOmittedValues(p) && Lists.NoDuplicates(Keys(p))
    ensures NoOmittedValues(AddAll(p, offer, keys))
    ensures Lists.NoDuplicates(Keys(AddAll(p, offer, keys)))
    decreases |keys|
  {
    if |keys| > 0 {
      AddFieldKeepsWellFormed(p, keys[0], offer(keys[0]));
      AddAllKeepsWellFormed(AddField(p, keys[0], offer(keys[0])), offer, keys[1..]);
    }
  }

  /** No key of the payload is written twice and no value is undefined, null, "" or an empty list. */
  lemma BuildWellFormed(f: SearchForm, parseFloat: string -> Option<real>)
    ensures NoOmittedValues(Build(f, parseFloat))
    ensures Lists.NoDuplicates(Keys(Build(f, parseFloat)))
  {
    var p := [(Pagina, JNum(0.0))];
    assert Keys(p) == [Pagina];
    AddAllKeepsWellFormed(p, key => Offered(f, parseFloat, key), FieldOrder);
  }

  lemma OfferFieldOrderKeys(p: seq<(Key, Json)>, offer: Key -> Json, sent: Key -> bool)
    requires forall k :: sent(k) == !IsOmitted(offer(k))
    requires forall i :: 0 <= i < |FieldOrder| ==> FieldOrder[i] !in Keys(p)
    ensures Keys(AddAll(p, offer, FieldOrder)) == Keys(p) + Lists.Filter(FieldOrder, sent)
  {
    FieldOrderDistinct();
    AddAllKeys(p, offer, sent, FieldOrder);
  }

  /** The payload's keys: `pagina` first, then the keys whose values are sent, in the builder's fixed order. */
  lemma BuildKeys(f: SearchForm, parseFloat: string -> Option<real>)
    ensures Keys(Build(f, parseFloat)) ==
      [Pagina] + Lists.Filter(FieldOrder, k => Lookup(Build(f, parseFloat), k).Some?)
  {
    var p := [(Pagina, JNum(0.0))];
    var offer := key => Offered(f, parseFloat, key);
    var sent := key => !IsOmitted(Offered(f, parseFloat, key));
    assert Keys(p) == [Pagina];
    forall i | 0 <= i < |FieldOrder|
      ensures FieldOrder[i] !in Keys(p)
    {
      OnlyPaginaNotOffered(FieldOrder[i]);
    }
    OfferFieldOrderKeys(p, offer, sent);
    var present := k => Lookup(Build(f, parseFloat), k).Some?;
    forall i | 0 <= i < |FieldOrder|
      ensures sent(FieldOrder[i]) == present(FieldOrder[i])
    {
      OnlyPaginaNotOffered(FieldOrder[i]);
      BuildLookup(f, parseFloat, FieldOrder[i]);
    }
    Lists.FilterAgree(FieldOrder, sent, present);
  }

  lemma BuildSendsMei(f: SearchForm, parseFloat: string -> Option<real>)
    ensures Lookup(Build(f, parseFloat), Mei) == Some(MeiFilter(f))
  {
    BuildLookup(f, parseFloat, Mei);
  }

  lemma BuildSendsMoreFilters(f: SearchForm, parseFloat: string -> Option<real>)
    ensures Lookup(Build(f, parseFloat), MaisFiltros) == Some(MoreFilters(f))
  {
    BuildLookup(f, parseFloat, MaisFiltros);
  }

  lemma BuildSendsLimit(f: SearchForm, parseFloat: string -> Option<real>)
    ensures Lookup(Build(f, parseFloat), Limite) == Some(JNum(LimitValue(f.limit) as real))
  {
    BuildLookup(f, parseFloat, Limite);
  }

  /** The page number, the MEI object, the extra-filters object and the limit are always sent. */
  lemma BuildAlwaysSends(f: SearchForm, parseFloat: string -> Option<real>)
    ensures Lookup(Build(f, parseFloat), Pagina) == Some(JNum(0.0))
    ensures Lookup(Build(f, parseFloat), Mei) == Some(MeiFilter(f))
    ensures Lookup(Build(f, parseFloat), MaisFiltros) == Some(MoreFilters(f))
    ensures Lookup(Build(f, parseFloat), Limite) == Some(JNum(LimitValue(f.limit) as real))
  {
    BuildLookup(f, parseFloat, Pagina);
    BuildSendsMei(f, parseFloat);
    BuildSendsMoreFilters(f, parseFloat);
    BuildSendsLimit(f, parseFloat);
  }

  /** `busca_textual` is sent iff a company name was typed, and is then the one fixed clause around it. */
  lemma BuildTextSearch(f: SearchForm, parseFloat: string -> Option<real>)
    ensures Lookup(Build(f, parseFloat), BuscaTextual).Some? <==> f.companyName != ""
    ensures f.companyName != "" ==> Lookup(Build(f, parseFloat), BuscaTextual) == Some(JArr([TextClause(f.companyName)]))
  {
    BuildLookup(f, parseFloat, BuscaTextual);
  }

  /** A list filter's value when it is copied into the payload. */
  function ListValue(xs: seq<string>): Option<Json> {
    if |xs| > 0 then Some(Strings(xs)) else None
  }

  /** Each list filter is copied unchanged when non-empty and left out when empty; the status becomes a one-element list. */
  lemma BuildListFilters(f: SearchForm, parseFloat: string -> Option<real>)
    ensures Lookup(Build(f, parseFloat), CodigoAtividadePrincipal) == ListValue(f.mainActivity)
    ensures Lookup(Build(f, parseFloat), CodigoNaturezaJuridica) == ListValue(f.legalNature)
    ensures Lookup(Build(f, parseFloat), SituacaoCadastral) == if f.status != "" then Some(JArr([JStr(f.status)])) else None
    ensures Lookup(Build(f, parseFloat), Uf) == ListValue(f.state)
    ensures Lookup(Build(f, parseFloat), Municipio) == ListValue(f.city)
    ensures Lookup(Build(f, parseFloat), Bairro) == ListValue(f.neighborhood)
    ensures Lookup(Build(f, parseFloat), Cep) == ListValue(f.zipCode)
    ensures Lookup(Build(f, parseFloat), Ddd) == ListValue(f.ddd)
  {
    BuildLookup(f, parseFloat, CodigoAtividadePrincipal);
    BuildLookup(f, parseFloat, CodigoNaturezaJuridica);
    BuildLookup(f, parseFloat, SituacaoCadastral);
    BuildLookup(f, parseFloat, Uf);
    BuildLookup(f, parseFloat, Municipio);
    BuildLookup(f, parseFloat, Bairro);
    BuildLookup(f, parseFloat, Cep);
    BuildLookup(f, parseFloat, Ddd);
  }

  /** `data_abertura` is sent iff a bound is set, and then holds `inicio` and `fim` exactly for the bounds that are set. */
  lemma BuildOpeningDates(f: SearchForm, parseFloat: string -> Option<real>)
    ensures Lookup(Build(f, parseFloat), DataAbertura).Some? <==> f.openingDateFrom.Some? || f.openingDateTo.Some?
    ensures Lookup(Build(f, parseFloat), DataAbertura).Some? ==>
      Lookup(Build(f, parseFloat), DataAbertura) == Some(JObj(OpeningDates(f)))
  {
    BuildLookup(f, parseFloat, DataAbertura);
    OpeningDatesFacts(f);
  }

  /** `capital_social` is sent iff a bound parses to a positive number, and then holds exactly those bounds. */
  lemma BuildCapital(f: SearchForm, parseFloat: string -> Option<real>)
    ensures Lookup(Build(f, parseFloat), CapitalSocial).Some? <==>
      PositiveAmount(FormatNumber(f.capitalFrom, parseFloat)) || PositiveAmount(FormatNumber(f.capitalTo, parseFloat))
    ensures Lookup(Build(f, parseFloat), CapitalSocial).Some? ==>
      Lookup(Build(f, parseFloat), CapitalSocial) == Some(JObj(CapitalRange(f, parseFloat)))
  {
    BuildLookup(f, parseFloat, CapitalSocial);
    CapitalRangeFacts(f, parseFloat);
  }

  lemma FiftyParses()
    ensures JsNumber.ParseInt("50") == Some(50)
  {
    JsNumber.ParseIntOfIntToString(50);
    assert JsNumber.IntToString(50) == "50";
  }

  /** A form with no filter set: no name, no list entries, no status, no dates and no capital bounds. */
  predicate NoFilters(f: SearchForm) {
    && f.companyName == "" && f.status == ""
    && f.mainActivity == [] && f.legalNature == [] && f.state == [] && f.city == []
    && f.neighborhood == [] && f.zipCode == [] && f.ddd == []
    && f.openingDateFrom.None? && f.openingDateTo.None?
    && f.capitalFrom == "" && f.capitalTo == ""
  }

  /** The keys after `pagina` that every payload carries. */
  predicate AlwaysSent(k: Key) {
    k == Mei || k == MaisFiltros || k == Limite
  }

  /** Without filters only the always-sent keys are present. */
  lemma NoFiltersPresent(f: SearchForm, parseFloat: string -> Option<real>, k: Key)
    requires NoFilters(f)
    ensures Lookup(Build(f, parseFloat), k).Some? <==> k == Pagina || k == Mei || k == MaisFiltros || k == Limite
  {
    match k {
      case Pagina => BuildLookup(f, parseFloat, k);
      case BuscaTextual => BuildTextSearch(f, parseFloat);
      case CodigoAtividadePrincipal => BuildListFilters(f, parseFloat);
      case CodigoNaturezaJuridica => BuildListFilters(f, parseFloat);
      case SituacaoCadastral => BuildListFilters(f, parseFloat);
      case Uf => BuildListFilters(f, parseFloat);
      case Municipio => BuildListFilters(f, parseFloat);
      case Bairro => BuildListFilters(f, parseFloat);
      case Cep => BuildListFilters(f, parseFloat);
      case Ddd => BuildListFilters(f, parseFloat);
      case DataAbertura => BuildOpeningDates(f, parseFloat);
      case CapitalSocial => BuildCapital(f, parseFloat);
      case Mei => BuildSendsMei(f, parseFloat);
      case MaisFiltros => BuildSendsMoreFilters(f, parseFloat);
      case Limite => BuildSendsLimit(f, parseFloat);
    }
  }

  /** Of the offered keys, only the trailing three are present when no filter is. */
  lemma OnlyTrailingKeysPresent(present: Key -> bool)
    requires forall k :: present(k) == (k == Pagina || AlwaysSent(k))
    ensures forall i :: 0 <= i < |FilterKeys| ==> !present(FilterKeys[i])
    ensures forall i :: 0 <= i < |TrailingKeys| ==> present(TrailingKeys[i])
  {
  }

  lemma KeysOfAlwaysSent(b: seq<(Key, Json)>, present: Key -> bool)
    requires forall k :: present(k) == (k == Pagina || AlwaysSent(k))
    requires Keys(b) == [Pagina] + Lists.Filter(FieldOrder, present)
    ensures Keys(b) == [Pagina, Mei, MaisFiltros, Limite]
  {
    OnlyTrailingKeysPresent(present);
    Lists.FilterDropsPrefix(FilterKeys, TrailingKeys, present);
  }

  /** A form without filters sends only the page number, the MEI and extra-filter objects and the limit. */
  lemma BuildWithoutFilters(f: SearchForm, parseFloat: string -> Option<real>)
    requires NoFilters(f)
    ensures Keys(Build(f, parseFloat)) == [Pagina, Mei, MaisFiltros, Limite]
  {
    var b := Build(f, parseFloat);
    BuildKeys(f, parseFloat);
    var present := k => Lookup(b, k).Some?;
    forall k
      ensures present(k) == (k == Pagina || AlwaysSent(k))
    {
      NoFiltersPresent(f, parseFloat, k);
    }
    KeysOfAlwaysSent(b, present);
  }

  /** The untouched form has no filters and its limit is 50. */
  lemma DefaultFormFacts()
    ensures NoFilters(DefaultForm)
    ensures LimitValue(DefaultForm.limit) == 50
  {
    FiftyParses();
  }

  datatype FileType = Csv | Xlsx

  /** The payload with its keys spelled as in the JSON body. */
  function Serialize(fields: seq<(Key, Json)>): (r: seq<(string, Json)>)
    ensures |r| == |fields|
    ensures forall i :: 0 <= i < |fields| ==> r[i] == (KeyName(fields[i].0), fields[i].1)
  {
    seq(|fields|, i requires 0 <= i < |fields| => (KeyName(fields[i].0), fields[i].1))
  }

  /**
    The serialized body holds under each key's JSON name exactly what the payload holds
    under the key, and its names are distinct whenever the payload's keys are.
  */
  lemma {:induction false} SerializeLookup(fields: seq<(Key, Json)>, k: Key)
    ensures Lookup(Serialize(fields), KeyName(k)) == Lookup(fields, k)
    ensures Keys(Serialize(fields)) == Lists.Map(Keys(fields), KeyName)
    decreases |fields|
  {
    var r := Serialize(fields);
    if |fields| > 0 {
      SerializeLookup(fields[1..], k);
      assert Serialize(fields[1..]) == r[1..];
      KeyNameInjective(fields[0].0, k);
    }
  }

  /** The search body the form sends never repeats a name. */
  lemma BuildSerializesDistinct(f: SearchForm, parseFloat: string -> Option<real>)
    ensures Lists.NoDuplicates(Keys(Serialize(Build(f, parseFloat))))
  {
    BuildWellFormed(f, parseFloat);
    SerializeKeepsNamesDistinct(Build(f, parseFloat));
  }

  /** A well-formed payload serializes to a body without repeated names. */
  lemma SerializeKeepsNamesDistinct(fields: seq<(Key, Json)>)
    requires Lists.NoDuplicates(Keys(fields))
    ensures Lists.NoDuplicates(Keys(Serialize(fields)))
  {
    SerializeLookup(fields, Pagina);
    var names := Keys(Serialize(fields));
    forall i, j | 0 <= i < j < |names|
      ensures names[i] != names[j]
    {
      KeyNameInjective(Keys(fields)[i], Keys(fields)[j]);
    }
  }

  /**
    The search-and-send request, an object literal whose five keys are always written:
    `total_linhas`, `nome`, `tipo`, `enviar_para` and `pesquisa`.
  */
  datatype EmailRequest = EmailRequest(
    totalLinhas: int,
    nome: string,
    tipo: FileType,
    enviarPara: seq<string>,
    pesquisa: seq<(Key, Json)>)

  /** `handleConfirmEmailSend`'s request body. */
  function EmailPayload(f: SearchForm, parseFloat: string -> Option<real>, name: string, recipients: seq<string>, fileType: FileType): (r: EmailRequest)
    ensures r.nome == name && r.tipo == fileType && r.enviarPara == recipients
    ensures Lookup(r.pesquisa, Limite) == Some(JNum(r.totalLinhas as real))
    ensures r.pesquisa == Build(f, parseFloat)
  {
    BuildAlwaysSends(f, parseFloat);
    EmailRequest(LimitValue(f.limit), name, fileType, recipients, Build(f, parseFloat))
  }
}
