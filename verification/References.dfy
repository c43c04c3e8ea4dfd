/** Local references: JSON Pointer tokens as section 4 of RFC 6901 reads them, and the two
    decoders of the compiler and the evaluator. */
module References {
  import opened Json
  import opened ValidationPlan

  /** One left-to-right pass: `~1` stands for a slash and `~0` for a tilde. */
  function PointerDecode(s: string): string {
    if |s| < 2 then s
    else if s[0] == '~' && s[1] == '1' then "/" + PointerDecode(s[2..])
    else if s[0] == '~' && s[1] == '0' then "~" + PointerDecode(s[2..])
    else [s[0]] + PointerDecode(s[1..])
  }

  function PointerEncode(s: string): string {
    if s == [] then []
    else (if s[0] == '~' then "~0" else if s[0] == '/' then "~1" else [s[0]]) + PointerEncode(s[1..])
  }

  lemma SlashPassHead(s: string)
    requires s != []
    ensures ReplaceTilde(s, '1', '/') != []
    ensures ReplaceTilde(s, '1', '/')[0] == '0' ==> s[0] == '0'
  {
  }

  /** The two replacement passes of the code agree with the single pass of the standard on
      every string, also on ill-formed escapes. */
  lemma {:induction false} UnescapeIsPointerDecode(s: string)
    ensures Unescape(s) == PointerDecode(s)
    decreases |s|
  {
    if |s| >= 2 {
      if s[0] == '~' && s[1] == '1' {
        UnescapeIsPointerDecode(s[2..]);
        assert ([ '/' ] + ReplaceTilde(s[2..], '1', '/'))[1..] == ReplaceTilde(s[2..], '1', '/');
      } else if s[0] == '~' && s[1] == '0' {
        UnescapeIsPointerDecode(s[2..]);
        TildeZeroFirst(s);
      } else {
        UnescapeIsPointerDecode(s[1..]);
        SlashPassHead(s[1..]);
        assert ([s[0]] + ReplaceTilde(s[1..], '1', '/'))[1..] == ReplaceTilde(s[1..], '1', '/');
      }
    }
  }

  lemma TildeZeroFirst(s: string)
    requires |s| >= 2 && s[0] == '~' && s[1] == '0'
    ensures Unescape(s) == "~" + Unescape(s[2..])
  {
    var rest := s[2..];
    assert s[1..][1..] == rest;
    assert ReplaceTilde(s[1..], '1', '/') == ['0'] + ReplaceTilde(rest, '1', '/');
    var first := ReplaceTilde(s, '1', '/');
    assert first == ['~'] + (['0'] + ReplaceTilde(rest, '1', '/'));
    assert first[2..] == ReplaceTilde(rest, '1', '/');
  }

  /** Every definition name has a token that the code decodes back to it. */
  lemma EncodeRoundTrip(name: string)
    ensures Unescape(PointerEncode(name)) == name
  {
    UnescapeIsPointerDecode(PointerEncode(name));
    DecodeEncode(name);
  }

  lemma {:induction false} DecodeEncode(name: string)
    ensures PointerDecode(PointerEncode(name)) == name
  {
    if name != [] {
      DecodeEncode(name[1..]);
      var rest := PointerEncode(name[1..]);
      var all := PointerEncode(name);
      if name[0] == '~' || name[0] == '/' {
        assert all[2..] == rest;
      } else {
        assert all[1..] == rest;
      }
    }
  }

  // ----- The compiler's decoder -----

  predicate BadTilde(s: string) {
    exists i :: 0 <= i < |s| && s[i] == '~' && (i + 1 == |s| || (s[i + 1] != '0' && s[i + 1] != '1'))
  }

  /** The definition named by a reference, `#` for the root, nothing where compilation fails. */
  function DecodeReference(host: Host, reference: string): Option<string> {
    if reference == "#" then Some(reference)
    else match PointerToken(reference)
      case None => None
      case Some(token) =>
        if token == [] || '/' in token then None
        else match host.decodeUri(token)
          case None => None
          case Some(decoded) =>
            if '/' in decoded || BadTilde(decoded) then None else Some(Unescape(decoded))
  }

  /** The reference as JSON Schema reads it. */
  datatype Pointer = Root | Definition(name: string) | Dangling

  function Resolve(host: Host, reference: string): Pointer {
    if reference == "#" then Root
    else match PointerToken(reference)
      case None => Dangling
      case Some(token) =>
        match host.decodeUri(token)
        case None => Dangling
        case Some(decoded) => Definition(PointerDecode(decoded))
  }

  /** The evaluator looks up the name that the compiler decoded, and every reference but `#` points
      to the definition of that name. */
  lemma LookupIsExact(host: Host, reference: string)
    requires DecodeReference(host, reference).Some?
    ensures NormalizeReference(host, reference) == DecodeReference(host, reference).value
    ensures Resolve(host, reference) ==
            if reference == "#" then Root else Definition(NormalizeReference(host, reference))
  {
    if reference != "#" {
      UnescapeIsPointerDecode(host.decodeUri(PointerToken(reference).value).value);
    }
  }

  /** One token after the prefix, which is the encoding of the name by section 4 of RFC 6901 once the
      URI encoding is taken off. */
  predicate PointsTo(host: Host, reference: string, name: string) {
    match PointerToken(reference)
    case None => false
    case Some(token) => token != "" && '/' !in token && host.decodeUri(token) == Some(PointerEncode(name))
  }

  lemma {:induction false} EncodingIsSound(name: string)
    ensures '/' !in PointerEncode(name) && !BadTilde(PointerEncode(name))
  {
    if name != [] {
      EncodingIsSound(name[1..]);
      var head := if name[0] == '~' then "~0" else if name[0] == '/' then "~1" else [name[0]];
      var rest := PointerEncode(name[1..]);
      assert PointerEncode(name) == head + rest;
      forall i | 0 <= i < |head + rest| && (head + rest)[i] == '~'
        ensures i + 1 < |head + rest| && ((head + rest)[i + 1] == '0' || (head + rest)[i + 1] == '1')
      {
        if i >= |head| {
          assert rest[i - |head|] == '~';
        }
      }
    }
  }

  lemma {:induction false} DecodingIsExact(s: string)
    requires '/' !in s && !BadTilde(s)
    ensures PointerEncode(PointerDecode(s)) == s
    decreases |s|
  {
    if s != [] {
      var n := if s[0] == '~' then 2 else 1;
      assert s[0] == '~' ==> |s| >= 2 && (s[1] == '0' || s[1] == '1');
      var rest := s[n..];
      assert forall i :: 0 <= i < |rest| ==> rest[i] == s[n + i];
      DecodingIsExact(rest);
      assert s == s[..n] + rest;
    }
  }

  /** The compiler decodes exactly the references that point to a name, and to that name. */
  lemma DecodeMeans(host: Host, reference: string, name: string)
    requires reference != "#"
    ensures DecodeReference(host, reference) == Some(name) <==> PointsTo(host, reference, name)
  {
    if PointerToken(reference).Some? && host.decodeUri(PointerToken(reference).value).Some? {
      var decoded := host.decodeUri(PointerToken(reference).value).value;
      UnescapeIsPointerDecode(decoded);
      if '/' !in decoded && !BadTilde(decoded) {
        DecodingIsExact(decoded);
      }
      EncodingIsSound(name);
      DecodeEncode(name);
    }
  }

  /** The evaluator takes this reference to a definition for the root. */
  predicate Mistaken(host: Host, reference: string) {
    reference != "#" && DecodeReference(host, reference) == Some("#")
  }
}
