/** The compact form of a JSON Web Signature (RFC 7515, section 7.1). */
module JwsCompact {
  import opened Wrappers
  import opened Models
  import opened Text

  /** Parses a compact JWS; `None` is a value that is not a string. */
  function ParseCompactJws(p: Primitives, compactJws: Option<string>): (r: Result<Jws, Error>) {
    if compactJws.None? then Err(JwsCompactJwsNotString)
    else
      var parts := Split(compactJws.value, '.');
      if |parts| != 3 then Err(JwsCompactJwsInvalid)
      else
        var _ :- p.jwsHeader(parts[0]);
        if !p.isBase64Url(parts[2]) then Err(JwsSignatureNotBase64UrlString)
        else if !p.isBase64Url(parts[1]) then Err(JwsPayloadNotBase64UrlString)
        else Ok(Jws(parts[0], parts[1], parts[2]))
  }

  function ToCompactJws(jws: Jws): string {
    jws.protectedHeader + "." + jws.payload + "." + jws.signature
  }

  /** Printing what was parsed gives the original text, so a proof survives being packed and unpacked. */
  lemma PrintingUndoesParsing(p: Primitives, compactJws: Option<string>)
    requires ParseCompactJws(p, compactJws).Ok?
    ensures compactJws == Some(ToCompactJws(ParseCompactJws(p, compactJws).value))
  {
    var parts := Split(compactJws.value, '.');
    SplitIsInvertedByJoin(compactJws.value, '.');
    assert Join(parts[1..], '.') == parts[1] + "." + parts[2] by {
      assert Join(parts[1..][1..], '.') == parts[2];
    }
    assert Join(parts, '.') == parts[0] + ['.'] + (parts[1] + ['.'] + parts[2]);
    assert Join(parts, '.') == ToCompactJws(Jws(parts[0], parts[1], parts[2]));
  }

  /** Conversely, a JWS whose parts hold no period and pass the checks is recovered from its text. */
  lemma ParsingUndoesPrinting(p: Primitives, jws: Jws)
    requires '.' !in jws.protectedHeader && '.' !in jws.payload && '.' !in jws.signature
    requires p.jwsHeader(jws.protectedHeader).Ok? && p.isBase64Url(jws.payload) && p.isBase64Url(jws.signature)
    ensures ParseCompactJws(p, Some(ToCompactJws(jws))) == Ok(jws)
  {
    var tail := jws.payload + "." + jws.signature;
    assert ToCompactJws(jws) == jws.protectedHeader + "." + tail;
    SplitAfterPrefix(jws.protectedHeader, tail, '.');
    SplitAfterPrefix(jws.payload, jws.signature, '.');
    SplitWithoutDelimiter(jws.signature, '.');
  }
}
