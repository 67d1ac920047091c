/** The travel helper server's two non-numeric rules: which currency codes
    `convert_currency` accepts, and which browser origins the CORS middleware
    allows, read from the `ALLOWED_ORIGINS` environment variable. */
module Travel {
  import opened Wrappers
  import opened Strings
  import opened PyValue

  /** The demo exchange table, in hundredths of the target currency per US dollar. */
  const RatesInHundredths: map<string, nat> := map["EUR" := 90, "JPY" := 14000, "GBP" := 80]

  /** The currency and rate `convert_currency` settles on; the amount itself is
      floating point and not part of this model. */
  datatype Conversion = Conversion(currency: string, rateInHundredths: nat)

  /** `convert_currency`: the target code is upper-cased and must be in the table. */
  function ConvertCurrency(target: string): (r: Result<Conversion, PyError>)
    ensures r.Success? <==> Upper(target) in {"EUR", "JPY", "GBP"}
    ensures r.Success? ==> r.value.currency == Upper(target) && r.value.rateInHundredths == RatesInHundredths[r.value.currency]
    ensures r.Failure? ==> r.error == ValueError("Unsupported currency: " + Upper(target))
  {
    var code := Upper(target);
    if code !in RatesInHundredths then
      Failure(ValueError("Unsupported currency: " + code))
    else
      Success(Conversion(code, RatesInHundredths[code]))
  }

  /** Codes that differ only in letter case convert alike. */
  lemma ConvertIgnoresCase(a: string, b: string)
    requires |a| == |b|
    requires forall i :: 0 <= i < |a| ==> UpperChar(a[i]) == UpperChar(b[i])
    ensures ConvertCurrency(a) == ConvertCurrency(b)
  {
    assert Upper(a) == Upper(b);
  }

  /** The currency of a successful conversion is itself accepted, unchanged. */
  lemma ConvertedCodeIsStable(target: string)
    requires ConvertCurrency(target).Success?
    ensures ConvertCurrency(ConvertCurrency(target).value.currency) == ConvertCurrency(target)
  {
    UpperIdempotent(target);
  }

  /** Lower-case and mixed-case spellings of the supported codes are accepted;
      an unknown code is refused with its upper-cased spelling. */
  lemma ConvertExamples()
    ensures ConvertCurrency("eur") == Success(Conversion("EUR", 90))
    ensures ConvertCurrency("JpY") == Success(Conversion("JPY", 14000))
    ensures ConvertCurrency("usd") == Failure(ValueError("Unsupported currency: USD"))
  {
    assert Upper("eur") == "EUR";
    assert Upper("JpY") == "JPY";
    assert Upper("usd") == "USD";
    assert "USD"[0] != "EUR"[0] && "USD"[0] != "JPY"[0] && "USD"[0] != "GBP"[0];
    assert "USD" !in RatesInHundredths;
    assert "Unsupported currency: " + "USD" == "Unsupported currency: USD";
  }

  /** The CORS origin list: the comma-separated pieces of a non-empty
      `ALLOWED_ORIGINS`, kept as written (no trimming, empty pieces kept), or
      the wildcard alone when the variable is unset or empty. */
  function AllowedOrigins(env: Option<string>): (r: seq<string>)
    ensures env.None? || env.value == "" ==> r == ["*"]
    ensures env.Some? && env.value != "" ==> |r| > 0 && Join(r, ",") == env.value
    ensures env.Some? && env.value != "" ==> forall i :: 0 <= i < |r| ==> ',' !in r[i]
  {
    match env
    case None => ["*"]
    case Some(s) => if s == "" then ["*"] else Split(s, ',')
  }

  /** Any list of comma-free origins, written out joined by commas, is read back
      as the same list. */
  lemma OriginsRoundTrip(origins: seq<string>)
    requires |origins| > 0 && Join(origins, ",") != ""
    requires forall i :: 0 <= i < |origins| ==> ',' !in origins[i]
    ensures AllowedOrigins(Some(Join(origins, ","))) == origins
  {
    SplitJoin(origins, ',');
  }

  /** The pieces are exactly the text between commas: `"a, b,"` gives
      `["a", " b", ""]`. */
  lemma OriginsKeepSpacesAndEmpties()
    ensures AllowedOrigins(Some("a, b,")) == ["a", " b", ""]
  {
    var pieces := ["a", " b", ""];
    assert Join(pieces, ",") == "a, b,";
    OriginsRoundTrip(pieces);
  }
}
