/**
What the two header parsers accept, and what they read: which item gives a name its value, how
malformed escapes and text beyond ASCII are unquoted, and every way a bearer token is found.
*/
module HeaderLaws {
  import opened Wrappers
  import opened PythonText
  import opened Utf8
  import opened HeaderParsing

  // ---------------------------------------------------------------- the parsed map

  /** The item is the pair of this name and value. */
  ghost predicate IsPair(part: string, k: string, v: string) {
    exists name, value ::
      Strip(part) == name + "=" + value && '=' !in name && WellFormed(name, value) &&
      k == Strip(name) && v == Unquote(Strip(value))
  }

  ghost predicate HasName(part: string, k: string) {
    exists v :: IsPair(part, k, v)
  }

  lemma {:induction false} PairExact(part: string, k: string, v: string)
    ensures IsPair(part, k, v) <==> ParseItem(Strip(part)) == Ok((k, v))
  {
    if ParseItem(Strip(part)) == Ok((k, v)) {
      var name, value := FirstEquals(Strip(part));
      ItemExact(name, value);
      assert IsPair(part, k, v);
    }
    if IsPair(part, k, v) {
      var name, value :| Strip(part) == name + "=" + value && '=' !in name && WellFormed(name, value) &&
        k == Strip(name) && v == Unquote(Strip(value));
      ItemExact(name, value);
    }
  }

  /** A parsed header has the value of the last item of its name. */
  lemma {:induction false} ParsedValue(items: seq<string>, n: nat, k: string, v: string)
    requires ParseItems(items).Ok? && n < |items| && IsPair(items[n], k, v)
    requires forall m :: n < m < |items| ==> !HasName(items[m], k)
    ensures k in ParseItems(items).value && ParseItems(items).value[k] == v
  {
    if n == |items| - 1 {
      PairExact(items[n], k, v);
    } else {
      assert !HasName(items[|items| - 1], k);
      LastUnnamed(items, k);
      ParsedValue(items[..|items| - 1], n, k, v);
    }
  }

  /** The headers are those that some item names. */
  lemma {:induction false} ParsedNames(items: seq<string>, k: string)
    requires ParseItems(items).Ok?
    ensures k in ParseItems(items).value <==> exists n :: 0 <= n < |items| && HasName(items[n], k)
  {
    if items != [] {
      var front, last := items[..|items| - 1], items[|items| - 1];
      if HasName(last, k) {
        var v :| IsPair(last, k, v);
        ParsedValue(items, |items| - 1, k, v);
        assert items[|items| - 1] == last;
      } else {
        LastUnnamed(items, k);
        ParsedNames(front, k);
        assert items == front + [last];
      }
    }
  }

  lemma {:induction false} LastUnnamed(items: seq<string>, k: string)
    requires items != [] && ParseItems(items).Ok? && !HasName(items[|items| - 1], k)
    ensures var front := items[..|items| - 1];
            ParseItems(front).Ok? &&
            (k in ParseItems(items).value <==> k in ParseItems(front).value) &&
            (k in ParseItems(front).value ==> ParseItems(items).value[k] == ParseItems(front).value[k])
  {
    var last := items[|items| - 1];
    if Strip(last) != "" {
      var pair := ParseItem(Strip(last)).value;
      PairExact(last, pair.0, pair.1);
      assert pair.0 != k;
    }
  }

  // ---------------------------------------------------------------- unquoting

  /** The unreserved characters (section 2.3 of RFC 3986), by their codes. */
  lemma UnreservedExact(c: char)
    ensures var n := c as int;
            Unreserved(c) <==>
            48 <= n < 58 || 65 <= n < 91 || 97 <= n < 123 || n == 45 || n == 46 || n == 95 || n == 126
  {
  }

  lemma HexExact(c: char)
    ensures HexValue(c) ==
            match c
            case '0' => Some(0) case '1' => Some(1) case '2' => Some(2) case '3' => Some(3) case '4' => Some(4)
            case '5' => Some(5) case '6' => Some(6) case '7' => Some(7) case '8' => Some(8) case '9' => Some(9)
            case 'a' => Some(10) case 'b' => Some(11) case 'c' => Some(12)
            case 'd' => Some(13) case 'e' => Some(14) case 'f' => Some(15)
            case 'A' => Some(10) case 'B' => Some(11) case 'C' => Some(12)
            case 'D' => Some(13) case 'E' => Some(14) case 'F' => Some(15)
            case _ => None
  {
  }

  /** A percent sign and two hexadecimal digits are one byte; every other character is its own byte. */
  lemma EscapeExact(c: char, h: char, l: char, rest: string)
    requires IsAscii([c, h, l] + rest) && IsAscii([h, l] + rest) && IsAscii(rest)
    ensures UnquoteToBytes("") == []
    ensures c == '%' && HexValue(h) != None && HexValue(l) != None ==>
              UnquoteToBytes([c, h, l] + rest) == [16 * HexValue(h).value + HexValue(l).value] + UnquoteToBytes(rest)
    ensures c != '%' || HexValue(h) == None || HexValue(l) == None ==>
              UnquoteToBytes([c, h, l] + rest) == [c as int] + UnquoteToBytes([h, l] + rest)
  {
    var s := [c, h, l] + rest;
    assert s[3..] == rest && s[1..] == [h, l] + rest;
  }

  /** Text too short for an escape is left alone. */
  lemma {:induction false} ShortExact(s: string)
    requires IsAscii(s) && |s| < 3
    ensures |UnquoteToBytes(s)| == |s| && forall i :: 0 <= i < |s| ==> UnquoteToBytes(s)[i] == s[i] as int
  {
    if s != "" {
      ShortExact(s[1..]);
    }
  }

  /** Characters beyond ASCII are kept; what lies between them is unescaped and decoded piece by piece. */
  lemma {:induction false} UnquotePieces(ascii: string, c: char, rest: string)
    requires IsAscii(ascii) && c as int >= 0x80
    ensures UnquoteRuns(ascii) == Decode(UnquoteToBytes(ascii))
    ensures UnquoteRuns(ascii + [c] + rest) == Decode(UnquoteToBytes(ascii)) + [c] + UnquoteRuns(rest)
  {
    var s := ascii + [c] + rest;
    assert s[|ascii|..][1..] == rest;
    if ascii == "" {
      assert s == [c] + rest;
    } else {
      UnquoteAscii(ascii);
      RunEnds(ascii, c, rest);
      assert s[..|ascii|] == ascii;
    }
  }

  lemma {:induction false} RunEnds(ascii: string, c: char, rest: string)
    requires IsAscii(ascii) && c as int >= 0x80
    ensures AsciiRun(ascii + [c] + rest) == |ascii|
  {
    if ascii != "" {
      assert (ascii + [c] + rest)[1..] == ascii[1..] + [c] + rest;
      RunEnds(ascii[1..], c, rest);
    }
  }

  /** Looking for a percent sign first changes nothing. */
  lemma {:induction false} UnquoteShortcut(s: string)
    ensures Unquote(s) == UnquoteRuns(s)
  {
    if '%' !in s {
      PlainRuns(s);
    }
  }

  lemma {:induction false} PlainRuns(s: string)
    requires '%' !in s
    ensures UnquoteRuns(s) == s
    decreases |s|
  {
    if s != "" {
      if s[0] as int >= 0x80 {
        PlainRuns(s[1..]);
      } else {
        var n := AsciiRun(s);
        PlainTextDecodes(s[..n]);
        PlainRuns(s[n..]);
        assert s == s[..n] + s[n..];
      }
    }
  }

  // ---------------------------------------------------------------- bearer tokens

  /** The word in any letter case. */
  ghost predicate SaysBearer(s: string) {
    |s| == 6 && s[0] in {'b', 'B'} && s[1] in {'e', 'E'} && s[2] in {'a', 'A'} && s[3] in {'r', 'R'} &&
    s[4] in {'e', 'E'} && s[5] in {'r', 'R'}
  }

  lemma SchemeExact(s: string)
    ensures Lower(s) == "bearer" <==> SaysBearer(s)
  {
    LowerExact(s);
    if SaysBearer(s) {
      assert Lower(s) == "bearer";
    }
    if Lower(s) == "bearer" {
      assert Lower(s)[0] == 'b' && Lower(s)[1] == 'e' && Lower(s)[2] == 'a';
      assert Lower(s)[3] == 'r' && Lower(s)[4] == 'e' && Lower(s)[5] == 'r';
    }
  }

  /**
  A present Authorization header decides: the token after the first space, stripped, if the word
  before it is bearer and the token is not blank; otherwise it is refused, whatever the subprotocols.
  */
  lemma {:induction false} AuthorizationExact(scheme: string, token: string, subprotocols: string)
    requires ' ' !in scheme
    ensures BearerToken(Some(scheme), subprotocols) == Err(BadAuthorization)
    ensures BearerToken(Some(scheme + " " + token), subprotocols) ==
            if SaysBearer(scheme) && !Blank(token) then Ok(Strip(token)) else Err(BadAuthorization)
  {
    var value := scheme + " " + token;
    assert value[..|scheme|] == scheme && value[|scheme| + 1..] == token;
    IndexUnique(value, ' ', |scheme|);
    SchemeExact(scheme);
    StripBlank(token);
  }

  /** The subprotocols are the stripped pieces that are not blank, in order. */
  lemma {:induction false} ProtocolsExact(parts: seq<string>, more: seq<string>, part: string)
    ensures Protocols([]) == []
    ensures Protocols([part]) == if Blank(part) then [] else [Strip(part)]
    ensures Protocols(parts + more) == Protocols(parts) + Protocols(more)
  {
    StripBlank(part);
    assert [part][1..] == [];
    ProtocolsAppend(parts, more);
  }

  lemma {:induction false} ProtocolsAppend(parts: seq<string>, more: seq<string>)
    ensures Protocols(parts + more) == Protocols(parts) + Protocols(more)
  {
    if parts == [] {
      assert parts + more == more;
    } else {
      assert (parts + more)[1..] == parts[1..] + more;
      ProtocolsAppend(parts[1..], more);
    }
  }

  /** Without an Authorization header the subprotocol right after the first marker is the token. */
  lemma {:induction false} MarkerExact(subprotocols: string, before: seq<string>, after: seq<string>)
    requires "cnb.bearer" !in before
    ensures Protocols(Split(subprotocols, ',')) == before ==>
              BearerToken(None, subprotocols) == Err(MissingToken)
    ensures Protocols(Split(subprotocols, ',')) == before + ["cnb.bearer"] + after ==>
              BearerToken(None, subprotocols) == if after == [] then Err(MissingToken) else Ok(after[0])
  {
    AfterMarkerExact(before, after);
  }

  lemma {:induction false} AfterMarkerExact(before: seq<string>, after: seq<string>)
    requires "cnb.bearer" !in before
    ensures AfterMarker(before) == None
    ensures AfterMarker(before + ["cnb.bearer"] + after) == if after == [] then None else Some(after[0])
  {
    if before != [] {
      assert (before + ["cnb.bearer"] + after)[1..] == before[1..] + ["cnb.bearer"] + after;
      AfterMarkerExact(before[1..], after);
    }
  }
}
