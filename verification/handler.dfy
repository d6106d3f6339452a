/**
 The HTTP entry point around the validator: it picks the candidate CPF from
 the query string or, failing that, from the JSON body, and turns the verdict
 into a status code and a plain-text message. The request object and the JSON
 parser are abstracted into the two inputs of `Handle`.
 */
module Handler {
  import opened Wrappers
  import Cpf

  /**
   What the JSON parser made of the request body: either it failed (a
   missing or malformed body), or it produced an object whose `cpf` field may
   be absent. `Parsed(None)` also stands for a field that is present but
   falsy and not a string (`null`, `0`, `false`, `[]`, `{}`): like a missing
   field, it fails the truthiness test and leads to the 400 response.
   */
  datatype RequestBody = Unparseable | Parsed(cpfField: Option<string>)

  datatype Response = Response(status: int, text: string)

  const Ok := 200
  const BadRequest := 400

  const MissingCpfMessage: string := "Por favor, " + "passe o CPF na query string ou no corpo da requisição."
  const VerdictPrefix: string := "O CPF "
  const ValidSuffix: string := " é válido."
  const InvalidSuffix: string := " é inválido."

  /** Python truthiness of an optional string: present and non-empty. */
  predicate Truthy(v: Option<string>) {
    v.Some? && v.value != ""
  }

  /**
   The candidate after the query/body lookup: the query value when it is
   truthy; otherwise the body's field when the body parsed; otherwise the
   (falsy) query value unchanged.
   */
  function SelectCpf(query: Option<string>, body: RequestBody): (cpf: Option<string>)
    ensures Truthy(cpf) <==> Truthy(query) || (body.Parsed? && Truthy(body.cpfField))
    ensures Truthy(cpf) ==> cpf == (if Truthy(query) then query else body.cpfField)
  {
    if Truthy(query) then query
    else match body
      case Unparseable => query
      case Parsed(field) => field
  }

  /** The message of a 200 response: the value as supplied, then the verdict. */
  function VerdictMessage(cpf: string, valid: bool): string {
    VerdictPrefix + cpf + (if valid then ValidSuffix else InvalidSuffix)
  }

  /** Reads a 200 message back into the value it names and its verdict. */
  function DecodeVerdict(m: string): Option<(string, bool)> {
    if |m| >= |VerdictPrefix| + |ValidSuffix| && m[..|VerdictPrefix|] == VerdictPrefix
       && m[|m| - |ValidSuffix|..] == ValidSuffix
    then Some((m[|VerdictPrefix|..|m| - |ValidSuffix|], true))
    else if |m| >= |VerdictPrefix| + |InvalidSuffix| && m[..|VerdictPrefix|] == VerdictPrefix
       && m[|m| - |InvalidSuffix|..] == InvalidSuffix
    then Some((m[|VerdictPrefix|..|m| - |InvalidSuffix|], false))
    else None
  }

  /**
   The request handler: status 400 with the fixed guidance text when no
   truthy candidate was found, otherwise status 200 with a message naming
   the candidate exactly as supplied and the validator's verdict on it.
   */
  function Handle(query: Option<string>, body: RequestBody): (r: Response)
    ensures r.status == Ok || r.status == BadRequest
    ensures r.status == BadRequest <==> !Truthy(query) && !(body.Parsed? && Truthy(body.cpfField))
    ensures r.status == BadRequest ==> r.text == MissingCpfMessage
    ensures r.status == Ok ==> DecodeVerdict(r.text) == Some((SelectCpf(query, body).value, Cpf.ValidarCpf(SelectCpf(query, body).value)))
  {
    var cpf := SelectCpf(query, body);
    if Truthy(cpf) then
      var valid := Cpf.ValidarCpf(cpf.value);
      VerdictRoundTrip(cpf.value, valid);
      Response(Ok, VerdictMessage(cpf.value, valid))
    else
      Response(BadRequest, MissingCpfMessage)
  }

  /** Every verdict message decodes to the value and verdict it was built from. */
  lemma VerdictRoundTrip(cpf: string, valid: bool)
    ensures DecodeVerdict(VerdictMessage(cpf, valid)) == Some((cpf, valid))
  {
    var m := VerdictMessage(cpf, valid);
    var n := |VerdictPrefix|;
    if valid {
      assert m == VerdictPrefix + cpf + ValidSuffix;
      assert m[..n] == VerdictPrefix;
      assert m[|m| - |ValidSuffix|..] == ValidSuffix;
      assert m[n..|m| - |ValidSuffix|] == cpf;
    } else {
      assert m == VerdictPrefix + cpf + InvalidSuffix;
      assert m[..n] == VerdictPrefix;
      assert m[|m| - |InvalidSuffix|..] == InvalidSuffix;
      assert m[|m| - |ValidSuffix|..] != ValidSuffix by {
        assert m[|m| - |ValidSuffix|..][1] == InvalidSuffix[3] == 'i';
      }
      assert m[n..|m| - |InvalidSuffix|] == cpf;
    }
  }

  /** Any text that decodes as a verdict is exactly the message built from what it decodes to. */
  lemma DecodeVerdictInverse(m: string, cpf: string, valid: bool)
    requires DecodeVerdict(m) == Some((cpf, valid))
    ensures m == VerdictMessage(cpf, valid)
  {
    var n := |VerdictPrefix|;
    var suffix := if valid then ValidSuffix else InvalidSuffix;
    var k := |m| - |suffix|;
    assert n <= k && m[..n] == VerdictPrefix && m[n..k] == cpf && m[k..] == suffix;
    SplitThree(m, n, k);
  }

  /** A string is its three slices at two cut points, joined back together. */
  lemma SplitThree(m: string, n: nat, k: nat)
    requires n <= k <= |m|
    ensures m == m[..n] + m[n..k] + m[k..]
  {
  }

  /** The guidance text of a 400 response is never read as a verdict. */
  lemma MissingMessageIsNoVerdict()
    ensures DecodeVerdict(MissingCpfMessage) == None
  {
    assert MissingCpfMessage[..|VerdictPrefix|] == "Por fa";
  }

  /** A truthy query value is used whatever the body holds. */
  lemma QueryWins(q: string, body: RequestBody, other: RequestBody)
    requires q != ""
    ensures Handle(Some(q), body) == Handle(Some(q), other)
    ensures Handle(Some(q), body) == Response(Ok, VerdictMessage(q, Cpf.ValidarCpf(q)))
    ensures DecodeVerdict(Handle(Some(q), body).text) == Some((q, Cpf.ValidarCpf(q)))
  {
  }

  /** An empty query value counts as absent: the body decides. */
  lemma EmptyQueryIsAbsent(body: RequestBody)
    ensures Handle(Some(""), body) == Handle(None, body)
  {
  }

  /** A body that fails to parse is treated like one without a `cpf` field. */
  lemma UnparseableIsAbsent(query: Option<string>)
    ensures Handle(query, Unparseable) == Handle(query, Parsed(None))
  {
  }

  /** Without a truthy query value, a truthy body field is validated as supplied. */
  lemma BodyFallback(query: Option<string>, v: string)
    requires !Truthy(query) && v != ""
    ensures Handle(query, Parsed(Some(v))) == Response(Ok, VerdictMessage(v, Cpf.ValidarCpf(v)))
    ensures DecodeVerdict(Handle(query, Parsed(Some(v))).text) == Some((v, Cpf.ValidarCpf(v)))
  {
  }

  /**
   The response names the input as supplied: for "111.444.777-35" the message
   carries that string, which differs from its normalised digits, and the
   verdict "válido".
   */
  lemma EchoesUnnormalisedInput()
    ensures DecodeVerdict(Handle(Some("111.444.777-35"), Unparseable).text) == Some(("111.444.777-35", true))
    ensures Cpf.StripNonDigits("111.444.777-35") != "111.444.777-35"
  {
    var s := "111.444.777-35";
    assert Cpf.ValidarCpf(s) by {
      Cpf.PunctuatedReferenceVector();
    }
    assert Cpf.StripNonDigits(s) == "11144477735" by {
      Cpf.PunctuatedNormalizes();
    }
    assert |Cpf.StripNonDigits(s)| != |s|;
  }

  /** A valid CPF supplied in the query string gets 200 and "válido". */
  lemma ValidQueryExample()
    ensures Handle(Some("11144477735"), Unparseable) == Response(200, "O CPF 11144477735 é válido.")
  {
    var s := "11144477735";
    QueryWins(s, Unparseable, Unparseable);
    Cpf.ValidReferenceVector();
    ValidMessageText();
  }

  /** The literal text of the "válido" message for "11144477735". */
  lemma ValidMessageText()
    ensures VerdictMessage("11144477735", true) == "O CPF 11144477735 é válido."
  {
  }

  /** An invalid CPF supplied in the body gets 200 and "inválido". */
  lemma InvalidBodyExample()
    ensures Handle(None, Parsed(Some("11144477736"))) == Response(200, "O CPF 11144477736 é inválido.")
  {
    var s := "11144477736";
    BodyFallback(None, s);
    Cpf.InvalidReferenceVector();
    InvalidMessageText();
  }

  /** The literal text of the "inválido" message for "11144477736". */
  lemma InvalidMessageText()
    ensures VerdictMessage("11144477736", false) == "O CPF 11144477736 é inválido."
  {
  }

  /** No query value and an unparseable body get 400 and the guidance text. */
  lemma NothingSuppliedExample()
    ensures Handle(None, Unparseable) == Response(400, MissingCpfMessage)
  {
  }
}
