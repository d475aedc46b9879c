/**
The two header parsers: OTLP exporter headers as comma-separated `name=value` pairs with
percent-encoded values, and the bearer token from either the Authorization header or the
WebSocket subprotocol list.
*/
module HeaderParsing {
  import opened Wrappers
  import opened PythonText
  import opened Utf8

  // ---------------------------------------------------------------- splitting

  function IndexOf(s: string, c: char): (i: nat)
    requires c in s
    ensures i < |s| && s[i] == c && c !in s[..i]
  {
    if s[0] == c then 0 else 1 + IndexOf(s[1..], c)
  }

  /** `str.split` at every occurrence of a separator. */
  function Split(s: string, c: char): (parts: seq<string>)
    ensures |parts| >= 1
  {
    if c !in s then [s] else [s[..IndexOf(s, c)]] + Split(s[IndexOf(s, c) + 1..], c)
  }

  function Join(parts: seq<string>, c: char): string {
    if parts == [] then "" else if |parts| == 1 then parts[0] else parts[0] + [c] + Join(parts[1..], c)
  }

  lemma {:induction false} IndexUnique(s: string, c: char, n: nat)
    requires n < |s| && s[n] == c && c !in s[..n]
    ensures c in s && IndexOf(s, c) == n
  {
  }

  lemma {:induction false} FirstPiece(a: string, c: char, rest: string)
    requires c !in a
    ensures Split(a + [c] + rest, c) == [a] + Split(rest, c)
  {
    var s := a + [c] + rest;
    assert s[..|a|] == a && s[|a| + 1..] == rest;
    IndexUnique(s, c, |a|);
  }

  /** Splitting undoes joining. */
  lemma {:induction false} SplitJoin(parts: seq<string>, c: char)
    requires parts != [] && forall i :: 0 <= i < |parts| ==> c !in parts[i]
    ensures Split(Join(parts, c), c) == parts
  {
    if |parts| > 1 {
      FirstPiece(parts[0], c, Join(parts[1..], c));
      SplitJoin(parts[1..], c);
    }
  }

  lemma JoinFirst(a: string, rest: seq<string>, c: char)
    requires rest != []
    ensures Join([a] + rest, c) == a + [c] + Join(rest, c)
  {
    assert ([a] + rest)[1..] == rest;
  }

  lemma {:induction false} JoinStep(a: string, c: char, rest: string)
    requires c !in a && Join(Split(rest, c), c) == rest
    ensures Join(Split(a + [c] + rest, c), c) == a + [c] + rest
  {
    FirstPiece(a, c, rest);
    JoinFirst(a, Split(rest, c), c);
  }

  lemma Around(s: string, c: char)
    requires c in s
    ensures s == s[..IndexOf(s, c)] + [c] + s[IndexOf(s, c) + 1..]
  {
  }

  /** Joining undoes splitting, so the pieces are exactly what lies between the separators. */
  lemma {:induction false} JoinSplit(s: string, c: char)
    ensures Join(Split(s, c), c) == s
    decreases |s|
  {
    if c in s {
      Around(s, c);
      var a, rest := s[..IndexOf(s, c)], s[IndexOf(s, c) + 1..];
      JoinSplit(rest, c);
      JoinStep(a, c, rest);
    }
  }

  lemma {:induction false} PiecesHaveNoSeparator(s: string, c: char, i: nat)
    requires i < |Split(s, c)|
    ensures c !in Split(s, c)[i]
  {
    if c in s && i > 0 {
      PiecesHaveNoSeparator(s[IndexOf(s, c) + 1..], c, i - 1);
    }
  }

  // ---------------------------------------------------------------- percent decoding

  function HexValue(c: char): (v: Option<int>)
    ensures v.Some? ==> 0 <= v.value < 16
  {
    if '0' <= c <= '9' then Some(c as int - '0' as int)
    else if 'a' <= c <= 'f' then Some(c as int - 'a' as int + 10)
    else if 'A' <= c <= 'F' then Some(c as int - 'A' as int + 10)
    else None
  }

  predicate IsEscape(s: string) {
    |s| >= 3 && s[0] == '%' && HexValue(s[1]).Some? && HexValue(s[2]).Some?
  }

  predicate IsAscii(s: string) {
    forall i :: 0 <= i < |s| ==> s[i] as int < 0x80
  }

  /** An incomplete or malformed escape stands for itself. */
  function UnquoteToBytes(s: string): seq<Byte>
    requires IsAscii(s)
  {
    if s == "" then []
    else if IsEscape(s) then [16 * HexValue(s[1]).value + HexValue(s[2]).value] + UnquoteToBytes(s[3..])
    else [s[0] as int] + UnquoteToBytes(s[1..])
  }

  function AsciiRun(s: string): (n: nat)
    ensures n <= |s| && IsAscii(s[..n]) && (n < |s| ==> s[n] as int >= 0x80)
  {
    if s == "" || s[0] as int >= 0x80 then 0 else 1 + AsciiRun(s[1..])
  }

  /** Every run of ASCII characters is unescaped and decoded on its own. */
  function UnquoteRuns(s: string): string {
    if s == "" then ""
    else if s[0] as int >= 0x80 then [s[0]] + UnquoteRuns(s[1..])
    else Decode(UnquoteToBytes(s[..AsciiRun(s)])) + UnquoteRuns(s[AsciiRun(s)..])
  }

  function Unquote(s: string): string {
    if '%' !in s then s else UnquoteRuns(s)
  }

  // ---------------------------------------------------------------- OTLP headers

  datatype HeaderError = MalformedHeader

  /** One stripped, non-empty item: the pair it stands for, if it is well formed. */
  function ParseItem(item: string): Result<(string, string), HeaderError> {
    if '=' !in item then Err(MalformedHeader)
    else ParsePair(item[..IndexOf(item, '=')], item[IndexOf(item, '=') + 1..])
  }

  function ParsePair(name: string, value: string): Result<(string, string), HeaderError> {
    if Strip(name) == "" || '\r' in value || '\n' in value then Err(MalformedHeader)
    else Ok((Strip(name), Unquote(Strip(value))))
  }

  function ParseItems(items: seq<string>): Result<map<string, string>, HeaderError> {
    if items == [] then Ok(map[]) else
    var before, item := ParseItems(items[..|items| - 1]), Strip(items[|items| - 1]);
    if before.Err? || item == "" then before
    else match ParseItem(item)
         case Err(e) => Err(e)
         case Ok(pair) => Ok(before.value[pair.0 := pair.1])
  }

  lemma ParseItemsRound(items: seq<string>, n: nat)
    requires n < |items|
    ensures var before, item := ParseItems(items[..n]), Strip(items[n]);
            ParseItems(items[..n + 1]) ==
            if before.Err? || item == "" then before
            else match ParseItem(item)
                 case Err(e) => Err(e)
                 case Ok(pair) => Ok(before.value[pair.0 := pair.1])
  {
    assert items[..n + 1][..n] == items[..n];
  }

  /** One round of the loop; a malformed item raises. */
  method ReadItem(item: string) returns (r: Result<(string, string), HeaderError>)
    ensures r == ParseItem(item)
  {
    if '=' !in item {
      return Err(MalformedHeader);
    }
    var name, value := item[..IndexOf(item, '=')], item[IndexOf(item, '=') + 1..];
    if Strip(name) == "" || '\r' in value || '\n' in value {
      return Err(MalformedHeader);
    }
    return Ok((Strip(name), Unquote(Strip(value))));
  }

  method ParseOtlpHeaders(raw: string) returns (r: Result<map<string, string>, HeaderError>)
    ensures r == ParseItems(Split(raw, ','))
  {
    var headers: map<string, string> := map[];
    var parts := Split(raw, ',');
    for n := 0 to |parts|
      invariant ParseItems(parts[..n]) == Ok(headers)
    {
      ParseItemsRound(parts, n);
      var item := Strip(parts[n]);
      if item != "" {
        var pair := ReadItem(item);
        if pair.Err? {
          ErrorStops(parts, n + 1);
          return Err(pair.error);
        }
        headers := headers[pair.value.0 := pair.value.1];
      }
    }
    assert parts[..|parts|] == parts;
    return Ok(headers);
  }

  lemma {:induction false} ErrorStops(items: seq<string>, n: nat)
    requires n <= |items| && ParseItems(items[..n]).Err?
    ensures ParseItems(items) == ParseItems(items[..n])
  {
    if n == |items| {
      assert items[..n] == items;
    } else {
      assert items[..|items| - 1][..n] == items[..n];
      ErrorStops(items[..|items| - 1], n);
    }
  }

  // ---------------------------------------------------------------- one item

  /** A name and a value as an item may give them. */
  ghost predicate WellFormed(name: string, value: string) {
    !Blank(name) && '\r' !in value && '\n' !in value
  }

  /** An item is read at its first equals sign: the stripped name, and the stripped value unquoted. */
  lemma {:induction false} ItemExact(name: string, value: string)
    requires '=' !in name
    ensures ParseItem(name + "=" + value) ==
            if WellFormed(name, value) then Ok((Strip(name), Unquote(Strip(value)))) else Err(MalformedHeader)
  {
    var item := name + "=" + value;
    assert item[..|name|] == name && item[|name| + 1..] == value;
    IndexUnique(item, '=', |name|);
    StripBlank(name);
  }

  lemma ItemWithoutValue(item: string)
    requires '=' !in item
    ensures ParseItem(item) == Err(MalformedHeader)
  {
  }

  lemma {:induction false} FirstEquals(item: string) returns (name: string, value: string)
    requires '=' in item
    ensures item == name + "=" + value && '=' !in name
  {
    var n := IndexOf(item, '=');
    name, value := item[..n], item[n + 1..];
  }

  /** An item that is neither blank nor a well-formed pair. */
  ghost predicate BadItem(part: string) {
    !Blank(part) &&
    forall name, value :: Strip(part) == name + "=" + value && '=' !in name ==> !WellFormed(name, value)
  }

  lemma {:induction false} BadItemExact(part: string)
    ensures BadItem(part) <==> Strip(part) != "" && ParseItem(Strip(part)).Err?
  {
    StripBlank(part);
    if '=' in Strip(part) {
      var name, value := FirstEquals(Strip(part));
      ItemExact(name, value);
      if Strip(part) != "" && ParseItem(Strip(part)).Err? {
        forall name', value' | Strip(part) == name' + "=" + value' && '=' !in name'
          ensures !WellFormed(name', value')
        {
          ItemExact(name', value');
        }
      }
    } else {
      forall name, value: string ensures Strip(part) != name + "=" + value {
        assert (name + "=" + value)[|name|] == '=';
      }
    }
  }

  lemma {:induction false} FirstBadItem(items: seq<string>, n: nat)
    requires n < |items| && BadItem(items[n])
    ensures ParseItems(items).Err?
  {
    BadItemExact(items[n]);
    if n < |items| - 1 {
      FirstBadItem(items[..|items| - 1], n);
    }
  }

  /** The parser fails exactly when some item is neither blank nor a well-formed pair. */
  lemma {:induction false} ParseFails(items: seq<string>)
    ensures ParseItems(items).Err? <==> exists n :: 0 <= n < |items| && BadItem(items[n])
  {
    if items != [] {
      var front := items[..|items| - 1];
      ParseFails(front);
      BadItemExact(items[|items| - 1]);
      if n :| 0 <= n < |items| && BadItem(items[n]) {
        FirstBadItem(items, n);
      }
      if n :| 0 <= n < |front| && BadItem(front[n]) {
        assert BadItem(items[n]);
      }
    }
  }

  // ---------------------------------------------------------------- writing headers

  predicate Unreserved(c: char) {
    'a' <= c <= 'z' || 'A' <= c <= 'Z' || '0' <= c <= '9' || c in {'-', '.', '_', '~'}
  }

  /** `text` is a percent-encoding of the bytes (section 2.1 of RFC 3986), escaping at least what it must. */
  ghost predicate PercentEncodes(text: string, bytes: seq<Byte>)
    decreases |bytes|
  {
    if bytes == [] then text == ""
    else if IsEscape(text) then
      16 * HexValue(text[1]).value + HexValue(text[2]).value == bytes[0] && PercentEncodes(text[3..], bytes[1..])
    else
      text != "" && Unreserved(text[0]) && text[0] as int == bytes[0] && PercentEncodes(text[1..], bytes[1..])
  }

  lemma {:induction false} EncodedText(text: string, bytes: seq<Byte>)
    requires PercentEncodes(text, bytes)
    ensures forall i :: 0 <= i < |text| ==> Unreserved(text[i]) || text[i] == '%'
    ensures IsAscii(text) && UnquoteToBytes(text) == bytes
    decreases |bytes|
  {
    if bytes != [] {
      if IsEscape(text) {
        EncodedText(text[3..], bytes[1..]);
        assert text == text[..3] + text[3..];
      } else {
        EncodedText(text[1..], bytes[1..]);
      }
    }
  }

  lemma {:induction false} PlainBytes(text: string)
    requires IsAscii(text) && '%' !in text
    ensures |UnquoteToBytes(text)| == |text|
    ensures forall i :: 0 <= i < |text| ==> UnquoteToBytes(text)[i] == text[i] as int
  {
    if text != "" {
      PlainBytes(text[1..]);
    }
  }

  lemma {:induction false} WholeRun(s: string)
    requires IsAscii(s)
    ensures AsciiRun(s) == |s|
  {
  }

  lemma UnquoteAscii(text: string)
    requires IsAscii(text) && text != ""
    ensures UnquoteRuns(text) == Decode(UnquoteToBytes(text))
  {
    WholeRun(text);
    assert text[..|text|] == text && text[|text|..] == "";
    assert Decode(UnquoteToBytes(text)) + UnquoteRuns("") == Decode(UnquoteToBytes(text));
  }

  lemma {:induction false} PlainTextDecodes(text: string)
    requires IsAscii(text) && '%' !in text
    ensures Decode(UnquoteToBytes(text)) == text
  {
    PlainBytes(text);
    DecodeAscii(UnquoteToBytes(text));
  }

  /** Unquoting any percent-encoding of a text gives the text back. */
  lemma {:induction false} UnquoteEncoded(text: string, value: string)
    requires PercentEncodes(text, Encode(value))
    ensures Unquote(text) == value
  {
    EncodedText(text, Encode(value));
    DecodeEncode(value);
    if '%' in text {
      UnquoteAscii(text);
    } else {
      PlainTextDecodes(text);
    }
  }

  /** A header to be sent, with the percent-encoding chosen for its value. */
  datatype Header = Header(name: string, value: string, text: string)

  ghost predicate Sendable(h: Header) {
    && h.name != "" && Trimmed(h.name) && ',' !in h.name && '=' !in h.name
    && PercentEncodes(h.text, Encode(h.value))
  }

  function Item(h: Header): string {
    h.name + "=" + h.text
  }

  function Items(headers: seq<Header>): seq<string> {
    if headers == [] then [] else Items(headers[..|headers| - 1]) + [Item(headers[|headers| - 1])]
  }

  function AsMap(headers: seq<Header>): map<string, string> {
    if headers == [] then map[]
    else AsMap(headers[..|headers| - 1])[headers[|headers| - 1].name := headers[|headers| - 1].value]
  }

  lemma EncodedChars(c: char)
    requires Unreserved(c) || c == '%'
    ensures !IsSpace(c) && c != ',' && c != '\r' && c != '\n'
  {
  }

  lemma {:induction false} SentText(h: Header)
    requires Sendable(h)
    ensures forall i :: 0 <= i < |h.text| ==>
              !IsSpace(h.text[i]) && h.text[i] != ',' && h.text[i] != '\r' && h.text[i] != '\n'
    ensures Strip(h.text) == h.text && Unquote(h.text) == h.value
  {
    EncodedText(h.text, Encode(h.value));
    forall i | 0 <= i < |h.text|
      ensures !IsSpace(h.text[i]) && h.text[i] != ',' && h.text[i] != '\r' && h.text[i] != '\n'
    {
      EncodedChars(h.text[i]);
    }
    TrimmedIsFixed(h.text);
    UnquoteEncoded(h.text, h.value);
  }

  lemma {:induction false} SentItem(h: Header)
    requires Sendable(h)
    ensures ',' !in Item(h) && Strip(Item(h)) == Item(h) && Item(h) != ""
  {
    SentText(h);
    TrimmedIsFixed(Item(h));
  }

  lemma SentPair(name: string, text: string)
    requires Strip(name) == name && name != "" && Strip(text) == text && '\r' !in text && '\n' !in text
    ensures ParsePair(name, text) == Ok((name, Unquote(text)))
  {
  }

  lemma {:induction false} SentItemParses(h: Header)
    requires Sendable(h)
    ensures ParseItem(Item(h)) == Ok((h.name, h.value))
  {
    SentItemIndex(h);
    assert ParseItem(Item(h)) == ParsePair(h.name, h.text);
    SentText(h);
    TrimmedIsFixed(h.name);
    SentPair(h.name, h.text);
  }

  lemma SentItemIndex(h: Header)
    requires '=' !in h.name
    ensures '=' in Item(h) && IndexOf(Item(h), '=') == |h.name|
    ensures Item(h)[..|h.name|] == h.name && Item(h)[|h.name| + 1..] == h.text
  {
    assert Item(h)[..|h.name|] == h.name;
    IndexUnique(Item(h), '=', |h.name|);
  }

  lemma {:induction false} SentItems(headers: seq<Header>)
    requires forall i :: 0 <= i < |headers| ==> Sendable(headers[i])
    ensures ParseItems(Items(headers)) == Ok(AsMap(headers))
    ensures |Items(headers)| == |headers| && forall i :: 0 <= i < |headers| ==> ',' !in Items(headers)[i]
  {
    if headers != [] {
      var front := headers[..|headers| - 1];
      SentItems(front);
      SentItem(headers[|headers| - 1]);
      SentItemParses(headers[|headers| - 1]);
      assert Items(headers)[..|headers| - 1] == Items(front);
    }
  }

  /** Round trip: parsing the comma-joined encoded headers gives exactly the headers back. */
  lemma {:induction false} HeaderRoundTrip(headers: seq<Header>)
    requires forall i :: 0 <= i < |headers| ==> Sendable(headers[i])
    ensures ParseItems(Split(Join(Items(headers), ','), ',')) == Ok(AsMap(headers))
  {
    SentItems(headers);
    if headers == [] {
      assert Split("", ',') == [""];
      assert [""][..0] == [];
    } else {
      SplitJoin(Items(headers), ',');
    }
  }

  lemma {:induction false} AsMapExactly(headers: seq<Header>, i: nat)
    requires forall i, j :: 0 <= i < j < |headers| ==> headers[i].name != headers[j].name
    requires i < |headers|
    ensures headers[i].name in AsMap(headers) && AsMap(headers)[headers[i].name] == headers[i].value
    ensures |AsMap(headers)| == |headers|
  {
    var front := headers[..|headers| - 1];
    if i < |front| {
      AsMapExactly(front, i);
    } else if front != [] {
      AsMapExactly(front, 0);
    }
    AsMapNames(front, headers[|headers| - 1].name);
  }

  lemma {:induction false} AsMapNames(headers: seq<Header>, name: string)
    ensures name in AsMap(headers) <==> exists i :: 0 <= i < |headers| && headers[i].name == name
  {
    if headers != [] {
      var front := headers[..|headers| - 1];
      AsMapNames(front, name);
      assert headers == front + [headers[|headers| - 1]];
      if i :| 0 <= i < |headers| && headers[i].name == name {
        assert i < |front| ==> front[i].name == name;
      }
      if i :| 0 <= i < |front| && front[i].name == name {
        assert headers[i].name == name;
      }
    }
  }

  // ---------------------------------------------------------------- bearer token

  datatype TokenError = BadAuthorization | MissingToken

  function Protocols(parts: seq<string>): seq<string> {
    if parts == [] then []
    else if Strip(parts[0]) == "" then Protocols(parts[1..])
    else [Strip(parts[0])] + Protocols(parts[1..])
  }

  const BEARER_PROTOCOL := "cnb.bearer"

  /** The entry after the first marker. */
  function AfterMarker(protocols: seq<string>): Option<string> {
    if protocols == [] then None
    else if protocols[0] == BEARER_PROTOCOL then if |protocols| > 1 then Some(protocols[1]) else None
    else AfterMarker(protocols[1..])
  }

  function BearerToken(authorization: Option<string>, subprotocols: string): Result<string, TokenError> {
    match authorization
    case Some(value) =>
      if ' ' in value && Lower(value[..IndexOf(value, ' ')]) == "bearer" &&
         Strip(value[IndexOf(value, ' ') + 1..]) != "" then
        Ok(Strip(value[IndexOf(value, ' ') + 1..]))
      else Err(BadAuthorization)
    case None =>
      match AfterMarker(Protocols(Split(subprotocols, ',')))
      case Some(token) => Ok(token)
      case None => Err(MissingToken)
  }

  /** The browser's list of two subprotocols, joined as section 11.3.4 of RFC 6455 allows. */
  function SubprotocolList(token: string): string {
    BEARER_PROTOCOL + ", " + token
  }

  lemma {:induction false} ProtocolsPlain(parts: seq<string>, i: nat)
    requires i < |Protocols(parts)|
    ensures Trimmed(Protocols(parts)[i]) && Protocols(parts)[i] != ""
    ensures exists k :: 0 <= k < |parts| && Protocols(parts)[i] == Strip(parts[k])
  {
    if Strip(parts[0]) == "" || i > 0 {
      ProtocolsPlain(parts[1..], if Strip(parts[0]) == "" then i else i - 1);
      var j := if Strip(parts[0]) == "" then i else i - 1;
      var k :| 0 <= k < |parts[1..]| && Protocols(parts[1..])[j] == Strip(parts[1..][k]);
      assert parts[k + 1] == parts[1..][k];
    } else {
      StripTrimmed(parts[0]);
    }
  }

  lemma StripTrimmed(s: string)
    ensures Trimmed(Strip(s))
    ensures forall c :: c in Strip(s) ==> c in s
  {
    var l := StripLeft(s);
    var r := StripRight(l);
    StripLeftSuffix(s);
    StripRightPrefix(l);
    if r != "" {
      assert r[0] == l[0];
    }
  }

  /** The token offered by the browser comes back exactly when it is non-empty, trimmed and free of commas. */
  lemma {:induction false} SubprotocolRoundTrip(token: string)
    ensures BearerToken(None, SubprotocolList(token)) == Ok(token) <==>
            token != "" && Trimmed(token) && ',' !in token
  {
    var rest := " " + token;
    assert SubprotocolList(token) == BEARER_PROTOCOL + [','] + rest;
    FirstPiece(BEARER_PROTOCOL, ',', rest);
    MarkerFirst(Split(rest, ','));
    if Protocols(Split(rest, ',')) != [] {
      FirstProtocol(rest);
    }
    if token != "" && Trimmed(token) && ',' !in token {
      LoneToken(token);
    }
  }

  lemma MarkerFirst(tail: seq<string>)
    ensures AfterMarker(Protocols([BEARER_PROTOCOL] + tail)) ==
            if Protocols(tail) == [] then None else Some(Protocols(tail)[0])
  {
  }

  lemma {:induction false} FirstProtocol(rest: string)
    requires Protocols(Split(rest, ',')) != []
    ensures var first := Protocols(Split(rest, ','))[0]; first != "" && Trimmed(first) && ',' !in first
  {
    var tail := Split(rest, ',');
    ProtocolsPlain(tail, 0);
    var k :| 0 <= k < |tail| && Protocols(tail)[0] == Strip(tail[k]);
    PiecesHaveNoSeparator(rest, ',', k);
    StripTrimmed(tail[k]);
  }

  lemma LoneToken(token: string)
    requires token != "" && Trimmed(token) && ',' !in token
    ensures Protocols(Split(" " + token, ',')) == [token]
  {
    TrimmedIsFixed(token);
    StripLeading(' ', token);
    assert Split(" " + token, ',') == [" " + token];
    assert [" " + token][1..] == [];
  }

  /** A token sent in the Authorization header comes back exactly when it is non-empty and trimmed. */
  lemma {:induction false} AuthorizationRoundTrip(scheme: string, token: string, subprotocols: string)
    requires ' ' !in scheme
    ensures BearerToken(Some(scheme + " " + token), subprotocols) == Ok(token) <==>
            Lower(scheme) == "bearer" && token != "" && Trimmed(token)
  {
    var value := scheme + " " + token;
    assert value[..|scheme|] == scheme && value[|scheme| + 1..] == token;
    IndexUnique(value, ' ', |scheme|);
    StripTrimmed(token);
    if Trimmed(token) {
      TrimmedIsFixed(token);
    }
  }
}
