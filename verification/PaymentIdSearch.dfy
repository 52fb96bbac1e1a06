/**
 The on-chain payment id of internal/usecases/payment_usecase.go: supplied by the caller, or
 searched for in the metadata of the payment's events, newest first. Metadata is nested JSON in
 which a string may itself hold JSON; the search stops below depth four.
 */
module PaymentIdSearch {
  import opened Wrappers
  import opened Amounts
  import Hex

  // ---------------------------------------------------------------- 32-byte hex

  function WithoutPrefix(s: string): string { if "0x" <= s then s[2..] else s }

  /** `looksLikeBytes32Hex`. */
  predicate LooksLikeId(value: string) {
    var digits := WithoutPrefix(TrimSpace(Hex.Lower(value)));
    |digits| == 64 && Hex.Decode(digits).Some?
  }

  datatype PaymentId = PaymentId(bytes: seq<nat>, text: string)

  /** `parseOnchainPaymentID`. */
  function Parse(raw: string): Option<PaymentId> {
    var digits := WithoutPrefix(Hex.Lower(TrimSpace(raw)));
    if |digits| != 64 then None
    else match Hex.Decode(digits)
      case None => None
      case Some(bytes) => Some(PaymentId(bytes, "0x" + Hex.Encode(bytes)))
  }

  lemma {:induction false} LowerTrimLeft(s: string)
    ensures TrimLeft(Hex.Lower(s)) == Hex.Lower(TrimLeft(s))
  {
    if s != "" && IsSpace(s[0]) {
      assert Hex.Lower(s)[1..] == Hex.Lower(s[1..]);
      LowerTrimLeft(s[1..]);
    }
  }

  lemma {:induction false} LowerTrimRight(s: string)
    ensures TrimRight(Hex.Lower(s)) == Hex.Lower(TrimRight(s))
  {
    if s != "" && IsSpace(s[|s| - 1]) {
      assert Hex.Lower(s)[..|s| - 1] == Hex.Lower(s[..|s| - 1]);
      LowerTrimRight(s[..|s| - 1]);
    }
  }

  lemma TrimTrim(s: string)
    ensures TrimSpace(TrimSpace(s)) == TrimSpace(s)
  {
    var t := TrimSpace(s);
    assert t <= TrimLeft(s);
    assert t != "" ==> t[0] == TrimLeft(s)[0];
    assert TrimLeft(t) == t;
  }

  /** The search's test and the parser accept the same texts, trimmed or not. */
  lemma ParsesIffLooksLikeId(s: string)
    ensures Parse(s).Some? <==> LooksLikeId(s)
    ensures Parse(TrimSpace(s)) == Parse(s)
    ensures LooksLikeId(TrimSpace(s)) <==> LooksLikeId(s)
  {
    TrimTrim(s);
    forall t: string ensures TrimSpace(Hex.Lower(t)) == Hex.Lower(TrimSpace(t)) {
      LowerTrimLeft(t);
      LowerTrimRight(TrimLeft(t));
    }
  }

  /** A parsed id is 32 bytes, its text is the 64 lower-case digits after 0x, and parses to the same id. */
  lemma ParsedIdIsNormal(raw: string)
    requires Parse(raw).Some?
    ensures var id := Parse(raw).value;
            && |id.bytes| == 32
            && id.text == "0x" + WithoutPrefix(Hex.Lower(TrimSpace(raw)))
            && Parse(id.text) == Some(id)
  {
    var lower := Hex.Lower(TrimSpace(raw));
    var digits := WithoutPrefix(lower);
    Hex.LowerLower(TrimSpace(raw));
    assert Hex.Lower(digits) == digits by {
      assert forall i :: 0 <= i < |lower| ==> Hex.LowerChar(lower[i]) == lower[i];
    }
    Hex.EncodeDecode(digits);
    PrefixedIsNormal(digits);
  }

  lemma PrefixedIsNormal(digits: string)
    requires digits != "" && Hex.Lower(digits) == digits && Hex.Decode(digits).Some?
    ensures WithoutPrefix(Hex.Lower(TrimSpace("0x" + digits))) == digits
  {
    LastHexDigit(digits);
    PrefixTrims(digits);
  }

  lemma PrefixTrims(digits: string)
    requires digits != "" && Hex.Lower(digits) == digits && !IsSpace(digits[|digits| - 1])
    ensures WithoutPrefix(Hex.Lower(TrimSpace("0x" + digits))) == digits
  {
    var text := "0x" + digits;
    assert text[|text| - 1] == digits[|digits| - 1];
    TrimNothing(text);
    assert Hex.Lower(text) == text by {
      Hex.LowerAppend("0x", digits);
      assert Hex.Lower("0x") == "0x";
    }
    assert text[2..] == digits;
  }

  lemma {:induction false} LastHexDigit(s: string)
    requires s != "" && Hex.Decode(s).Some?
    ensures !IsSpace(s[|s| - 1])
  {
    if |s| > 2 {
      LastHexDigit(s[2..]);
    }
  }

  // --------------------------------------------------------------- nested metadata

  /** Decoded metadata; an object lists its fields in the order the map is iterated. */
  datatype Json = Null | Str(text: string) | Obj(fields: seq<(string, Json)>) | Arr(items: seq<Json>) | Other

  const MAX_DEPTH: nat := 4

  const PREFERRED: seq<string> := [
    "onchainPaymentId", "onchain_payment_id",
    "paymentIdHex", "payment_id_hex",
    "paymentIdBytes32", "payment_id_bytes32",
    "onchainPaymentID", "onchain_paymentID"
  ]

  type Decoder = string -> Option<Json>

  function Values(fields: seq<(string, Json)>): (vs: seq<Json>)
    ensures |vs| == |fields| && forall i :: 0 <= i < |fields| ==> vs[i] == fields[i].1
  {
    seq(|fields|, i requires 0 <= i < |fields| => fields[i].1)
  }

  function Lookup(fields: seq<(string, Json)>, key: string): (r: Option<Json>)
    ensures r.Some? ==> exists i :: 0 <= i < |fields| && fields[i] == (key, r.value)
    ensures r.None? ==> forall i :: 0 <= i < |fields| ==> fields[i].0 != key
  {
    if fields == [] then None
    else if fields[0].0 == key then Some(fields[0].1)
    else Lookup(fields[1..], key)
  }

  /** The values of those of the given keys that are present, in the order of the keys. */
  function ValuesAt(fields: seq<(string, Json)>, keys: seq<string>): (vs: seq<Json>)
    ensures forall v :: v in vs ==> exists i :: 0 <= i < |fields| && fields[i].1 == v && fields[i].0 in keys
    decreases keys, fields
  {
    if keys == [] then []
    else match Lookup(fields, keys[0])
      case None => ValuesAt(fields, keys[1..])
      case Some(v) => [v] + ValuesAt(fields, keys[1..])
  }

  function Levels(depth: nat): nat { if depth > MAX_DEPTH then 0 else MAX_DEPTH + 1 - depth }

  /** `extractOnchainPaymentIDFromMetadata`. */
  function Extract(j: Json, depth: nat, decode: Decoder): string
    decreases Levels(depth), 0, j
  {
    if depth > MAX_DEPTH then ""
    else match j
      case Str(s) =>
        var text := TrimSpace(s);
        if text == "" then ""
        else if LooksLikeId(text) then text
        else (match decode(text) case None => "" case Some(inner) => Extract(inner, depth + 1, decode))
      case Obj(fields) => FirstFound(ValuesAt(fields, PREFERRED) + Values(fields), depth + 1, decode)
      case Arr(items) => FirstFound(items, depth + 1, decode)
      case Null => ""
      case Other => ""
  }

  function FirstFound(items: seq<Json>, depth: nat, decode: Decoder): string
    decreases Levels(depth), 1 + |items|, items
  {
    if items == [] then ""
    else if Extract(items[0], depth, decode) != "" then Extract(items[0], depth, decode)
    else FirstFound(items[1..], depth, decode)
  }

  // ------------------------------------------------------ what the search should find

  /** One move into a value: to a child, or to what the JSON text of a string decodes to. */
  datatype Move = Child(index: nat) | Unwrap

  /** What the text of a string decodes to; a blank text is no JSON. */
  function Unwrapped(s: string, decode: Decoder): Option<Json> {
    if TrimSpace(s) == "" then None else decode(TrimSpace(s))
  }

  function Children(j: Json): seq<Json> {
    match j
    case Obj(fields) => Values(fields)
    case Arr(items) => items
    case _ => []
  }

  /** The path leads to a string that is a 32-byte hex id. */
  predicate LeadsToId(j: Json, path: seq<Move>, decode: Decoder, id: string)
    decreases path
  {
    if path == [] then j.Str? && LooksLikeId(j.text) && id == TrimSpace(j.text)
    else match path[0]
      case Child(i) => i < |Children(j)| && LeadsToId(Children(j)[i], path[1..], decode, id)
      case Unwrap =>
        j.Str? && Unwrapped(j.text, decode).Some? && LeadsToId(Unwrapped(j.text, decode).value, path[1..], decode, id)
  }

  ghost predicate Holds(j: Json, moves: int, decode: Decoder, id: string) {
    exists path: seq<Move> :: |path| <= moves && LeadsToId(j, path, decode, id)
  }

  ghost predicate Findable(j: Json, moves: int, decode: Decoder) {
    exists id: string :: Holds(j, moves, decode, id)
  }

  lemma {:induction false} FirstOf(items: seq<Json>, depth: nat, decode: Decoder)
    ensures FirstFound(items, depth, decode) == "" <==>
              forall i :: 0 <= i < |items| ==> Extract(items[i], depth, decode) == ""
    ensures FirstFound(items, depth, decode) != "" ==>
              exists i :: 0 <= i < |items| && Extract(items[i], depth, decode) == FirstFound(items, depth, decode)
  {
    if items != [] {
      FirstOf(items[1..], depth, decode);
    }
  }

  lemma LongerPath(j: Json, moves: int, decode: Decoder, id: string, first: Move, next: Json)
    requires Holds(next, moves - 1, decode, id)
    requires match first
             case Child(i) => i < |Children(j)| && Children(j)[i] == next
             case Unwrap => j.Str? && Unwrapped(j.text, decode) == Some(next)
    ensures Holds(j, moves, decode, id)
  {
    var path: seq<Move> :| |path| <= moves - 1 && LeadsToId(next, path, decode, id);
    assert ([first] + path)[1..] == path;
    assert LeadsToId(j, [first] + path, decode, id);
  }

  lemma IdIsNotBlank(s: string)
    requires LooksLikeId(s)
    ensures TrimSpace(s) != ""
  {
    ParsesIffLooksLikeId(s);
  }

  /** What is extracted is the text of an id that some path of at most the remaining moves leads to. */
  lemma {:induction false} ExtractSound(j: Json, depth: nat, decode: Decoder)
    ensures Extract(j, depth, decode) != "" ==> Holds(j, MAX_DEPTH - depth, decode, Extract(j, depth, decode))
    decreases Levels(depth), 1
  {
    if depth <= MAX_DEPTH && Extract(j, depth, decode) != "" {
      if j.Str? {
        TextSound(j.text, depth, decode);
      } else {
        var i :| 0 <= i < |Children(j)| && Extract(Children(j)[i], depth + 1, decode) == Extract(j, depth, decode) by {
          SomeChild(j, depth, decode);
        }
        ExtractSound(Children(j)[i], depth + 1, decode);
        LongerPath(j, MAX_DEPTH - depth, decode, Extract(j, depth, decode), Child(i), Children(j)[i]);
      }
    }
  }

  lemma {:induction false} TextSound(s: string, depth: nat, decode: Decoder)
    requires depth <= MAX_DEPTH && Extract(Str(s), depth, decode) != ""
    ensures Holds(Str(s), MAX_DEPTH - depth, decode, Extract(Str(s), depth, decode))
    decreases Levels(depth), 0
  {
    var id := Extract(Str(s), depth, decode);
    var text := TrimSpace(s);
    if LooksLikeId(text) {
      LeafSound(s, MAX_DEPTH - depth, decode);
    } else {
      var inner := decode(text).value;
      assert Unwrapped(s, decode) == Some(inner) && Extract(inner, depth + 1, decode) == id;
      ExtractSound(inner, depth + 1, decode);
      LongerPath(Str(s), MAX_DEPTH - depth, decode, id, Unwrap, inner);
    }
  }

  lemma LeafSound(s: string, moves: nat, decode: Decoder)
    requires LooksLikeId(TrimSpace(s))
    ensures Holds(Str(s), moves, decode, TrimSpace(s))
  {
    ParsesIffLooksLikeId(s);
    assert LeadsToId(Str(s), [], decode, TrimSpace(s));
  }

  /** What an object or array yields is what one of its children yields. */
  lemma SomeChild(j: Json, depth: nat, decode: Decoder)
    requires depth <= MAX_DEPTH && !j.Str? && Extract(j, depth, decode) != ""
    ensures exists i :: 0 <= i < |Children(j)| && Extract(Children(j)[i], depth + 1, decode) == Extract(j, depth, decode)
  {
    match j
    case Obj(fields) =>
      var first := ValuesAt(fields, PREFERRED);
      var all := first + Values(fields);
      FirstOf(all, depth + 1, decode);
      var i :| 0 <= i < |all| && Extract(all[i], depth + 1, decode) == Extract(j, depth, decode);
      if i < |first| {
        assert first[i] in first;
        var k :| 0 <= k < |fields| && fields[k].1 == first[i];
        assert Children(j)[k] == all[i];
      } else {
        assert Children(j)[i - |first|] == all[i];
      }
    case Arr(items) =>
      FirstOf(items, depth + 1, decode);
      var i :| 0 <= i < |items| && Extract(items[i], depth + 1, decode) == Extract(j, depth, decode);
      assert Children(j)[i] == items[i];
  }

  lemma ChildIsEnough(j: Json, depth: nat, decode: Decoder, i: nat)
    requires depth <= MAX_DEPTH && i < |Children(j)| && Extract(Children(j)[i], depth + 1, decode) != ""
    ensures Extract(j, depth, decode) != ""
  {
    match j
    case Obj(fields) =>
      var first := ValuesAt(fields, PREFERRED);
      assert (first + Values(fields))[|first| + i] == Children(j)[i];
      FirstOf(first + Values(fields), depth + 1, decode);
    case Arr(items) =>
      FirstOf(items, depth + 1, decode);
  }

  /** Any id within the remaining moves makes the search find something. */
  lemma {:induction false} ExtractComplete(j: Json, depth: nat, decode: Decoder, path: seq<Move>, id: string)
    requires depth + |path| <= MAX_DEPTH && LeadsToId(j, path, decode, id)
    ensures Extract(j, depth, decode) != ""
    decreases path
  {
    if path == [] {
      TextIsEnough(j.text, depth, decode);
    } else if path[0].Child? {
      ExtractComplete(Children(j)[path[0].index], depth + 1, decode, path[1..], id);
      ChildIsEnough(j, depth, decode, path[0].index);
    } else {
      ExtractComplete(Unwrapped(j.text, decode).value, depth + 1, decode, path[1..], id);
      TextIsEnough(j.text, depth, decode);
    }
  }

  lemma TextIsEnough(s: string, depth: nat, decode: Decoder)
    requires depth <= MAX_DEPTH
    requires LooksLikeId(s) || (Unwrapped(s, decode).Some? && Extract(Unwrapped(s, decode).value, depth + 1, decode) != "")
    ensures Extract(Str(s), depth, decode) != ""
  {
    ParsesIffLooksLikeId(s);
    if LooksLikeId(s) {
      IdIsNotBlank(s);
    }
  }

  lemma FoundIffFindable(j: Json, depth: nat, decode: Decoder)
    ensures Extract(j, depth, decode) != "" <==> Findable(j, MAX_DEPTH - depth, decode)
  {
    var moves := MAX_DEPTH - depth;
    if Findable(j, moves, decode) {
      var id: string :| Holds(j, moves, decode, id);
      var path: seq<Move> :| |path| <= moves && LeadsToId(j, path, decode, id);
      ExtractComplete(j, depth, decode, path, id);
    } else {
      ExtractSound(j, depth, decode);
    }
  }

  /** The search is exact to its depth, for every decoder and every map order, and what it finds parses. */
  lemma ExtractIff(j: Json, depth: nat, decode: Decoder)
    ensures Extract(j, depth, decode) != "" <==> Findable(j, MAX_DEPTH - depth, decode)
    ensures Extract(j, depth, decode) != "" ==> Parse(Extract(j, depth, decode)).Some?
  {
    FoundIffFindable(j, depth, decode);
    var found := Extract(j, depth, decode);
    if found != "" {
      ExtractSound(j, depth, decode);
      var moves := MAX_DEPTH - depth;
      var path: seq<Move> :| |path| <= moves && LeadsToId(j, path, decode, found);
      LeadsToParsable(j, path, decode, found);
    }
  }

  lemma {:induction false} LeadsToParsable(j: Json, path: seq<Move>, decode: Decoder, id: string)
    requires LeadsToId(j, path, decode, id)
    ensures Parse(id).Some?
    decreases path
  {
    if path == [] {
      ParsesIffLooksLikeId(j.text);
    } else if path[0].Unwrap? {
      LeadsToParsable(Unwrapped(j.text, decode).value, path[1..], decode, id);
    } else {
      LeadsToParsable(Children(j)[path[0].index], path[1..], decode, id);
    }
  }

  /** An id under one of the named keys is taken before any other field of the object. */
  lemma NamedKeysFirst(fields: seq<(string, Json)>, depth: nat, decode: Decoder, key: string)
    requires depth <= MAX_DEPTH && key in PREFERRED
    requires Lookup(fields, key).Some? && Extract(Lookup(fields, key).value, depth + 1, decode) != ""
    ensures exists i :: 0 <= i < |fields| && fields[i].0 in PREFERRED &&
                        Extract(fields[i].1, depth + 1, decode) == Extract(Obj(fields), depth, decode)
    ensures Extract(Obj(fields), depth, decode) != ""
  {
    NamedFirst(fields, PREFERRED, depth + 1, decode, key);
  }

  lemma NamedFirst(fields: seq<(string, Json)>, keys: seq<string>, depth: nat, decode: Decoder, key: string)
    requires key in keys && Lookup(fields, key).Some? && Extract(Lookup(fields, key).value, depth, decode) != ""
    ensures var found := FirstFound(ValuesAt(fields, keys) + Values(fields), depth, decode);
            found != "" && exists i :: 0 <= i < |fields| && fields[i].0 in keys && Extract(fields[i].1, depth, decode) == found
  {
    var first := ValuesAt(fields, keys);
    NamedValue(fields, keys, key);
    FirstOf(first, depth, decode);
    FirstOfPrefix(first, Values(fields), depth, decode);
    var i :| 0 <= i < |first| && Extract(first[i], depth, decode) == FirstFound(first, depth, decode);
    assert first[i] in first;
  }

  lemma {:induction false} NamedValue(fields: seq<(string, Json)>, keys: seq<string>, key: string)
    requires key in keys && Lookup(fields, key).Some?
    ensures exists i :: 0 <= i < |ValuesAt(fields, keys)| && ValuesAt(fields, keys)[i] == Lookup(fields, key).value
  {
    if keys[0] == key {
      assert ValuesAt(fields, keys)[0] == Lookup(fields, key).value;
    } else {
      NamedValue(fields, keys[1..], key);
      var rest := ValuesAt(fields, keys[1..]);
      var i :| 0 <= i < |rest| && rest[i] == Lookup(fields, key).value;
      assert ValuesAt(fields, keys)[|ValuesAt(fields, keys)| - |rest| + i] == rest[i];
    }
  }

  lemma {:induction false} FirstOfPrefix(first: seq<Json>, rest: seq<Json>, depth: nat, decode: Decoder)
    requires FirstFound(first, depth, decode) != ""
    ensures FirstFound(first + rest, depth, decode) == FirstFound(first, depth, decode)
  {
    assert (first + rest)[0] == first[0];
    if Extract(first[0], depth, decode) == "" {
      assert (first + rest)[1..] == first[1..] + rest;
      FirstOfPrefix(first[1..], rest, depth, decode);
    }
  }

  // ------------------------------------------------------------------ the events

  /** The id that metadata yields, searched from the given depth on. */
  function Candidate(metadata: Json, depth: nat, decode: Decoder): Option<PaymentId> {
    ParseFound(Extract(metadata, depth, decode))
  }

  function ParseFound(candidate: string): Option<PaymentId> { if candidate == "" then None else Parse(candidate) }

  function Candidates(events: seq<Json>, depth: nat, decode: Decoder): (cs: seq<Option<PaymentId>>)
    ensures |cs| == |events| && forall i :: 0 <= i < |events| ==> cs[i] == Candidate(events[i], depth, decode)
  {
    seq(|events|, i requires 0 <= i < |events| => Candidate(events[i], depth, decode))
  }

  function LastSome<T>(cs: seq<Option<T>>): Option<T> {
    if cs == [] then None else if cs[|cs| - 1].Some? then cs[|cs| - 1] else LastSome(cs[..|cs| - 1])
  }

  function Resolve(events: seq<Json>, raw: string, decode: Decoder): Option<PaymentId> {
    if TrimSpace(raw) != "" then Parse(TrimSpace(raw)) else Newest(events, 0, decode)
  }

  /** The id of the newest event that yields one. */
  function Newest(events: seq<Json>, depth: nat, decode: Decoder): Option<PaymentId> {
    LastSome(Candidates(events, depth, decode))
  }

  method TryEvent(metadata: Json, decode: Decoder) returns (r: Option<PaymentId>)
    ensures r == Candidate(metadata, 0, decode)
  {
    var candidate := Extract(metadata, 0, decode);
    if candidate == "" {
      return None;
    }
    r := Parse(candidate);
  }

  /** `resolveOnchainPaymentID`; None is its error. */
  method ResolveOnchainPaymentId(events: seq<Json>, raw: string, decode: Decoder) returns (r: Option<PaymentId>)
    ensures r == Resolve(events, raw, decode)
  {
    if TrimSpace(raw) != "" {
      return Parse(TrimSpace(raw));
    }
    r := SearchEvents(events, decode);
  }

  method SearchEvents(events: seq<Json>, decode: Decoder) returns (r: Option<PaymentId>)
    ensures r == Newest(events, 0, decode)
  {
    ghost var cs := Candidates(events, 0, decode);
    assert cs[..|cs|] == cs;
    var i := |events| - 1;
    while i >= 0
      invariant -1 <= i < |events|
      invariant LastSome(cs) == LastSome(cs[..i + 1])
    {
      assert cs[..i + 1][..i] == cs[..i];
      assert cs[i] == Candidate(events[i], 0, decode);
      var parsed := TryEvent(events[i], decode);
      if parsed.Some? {
        return parsed;
      }
      i := i - 1;
    }
    return None;
  }

  lemma {:induction false} LastSomeIs<T>(cs: seq<Option<T>>)
    ensures LastSome(cs).None? <==> forall i :: 0 <= i < |cs| ==> cs[i].None?
  {
    if cs != [] && cs[|cs| - 1].None? {
      var rest := cs[..|cs| - 1];
      LastSomeIs(rest);
      assert forall i :: 0 <= i < |rest| ==> rest[i] == cs[i];
    }
  }

  lemma {:induction false} LastSomeAt<T>(cs: seq<Option<T>>) returns (i: nat)
    requires LastSome(cs).Some?
    ensures i < |cs| && LastSome(cs) == cs[i] && forall k :: i < k < |cs| ==> cs[k].None?
  {
    i := |cs| - 1;
    if cs[i].None? {
      i := LastSomeAt(cs[..|cs| - 1]);
    }
  }

  lemma CandidateIff(metadata: Json, depth: nat, decode: Decoder)
    ensures Candidate(metadata, depth, decode).Some? <==> Findable(metadata, MAX_DEPTH - depth, decode)
  {
    ExtractIff(metadata, depth, decode);
  }

  lemma CandidateIsHeld(metadata: Json, depth: nat, decode: Decoder) returns (id: string)
    requires Candidate(metadata, depth, decode).Some?
    ensures Holds(metadata, MAX_DEPTH - depth, decode, id) && Candidate(metadata, depth, decode) == Parse(id)
  {
    id := Extract(metadata, depth, decode);
    ExtractSound(metadata, depth, decode);
  }

  /** An id given by the caller is the one used, whatever the events hold; otherwise the events are searched. */
  lemma CallerWins(events: seq<Json>, raw: string, decode: Decoder)
    ensures TrimSpace(raw) != "" ==>
              Resolve(events, raw, decode) == Parse(raw) && (Resolve(events, raw, decode).Some? <==> LooksLikeId(raw))
    ensures TrimSpace(raw) == "" ==> Resolve(events, raw, decode) == Newest(events, 0, decode)
  {
    if TrimSpace(raw) != "" {
      ParsesIffLooksLikeId(raw);
    }
  }

  /** Event `i` is the newest one to hold an id within so many moves, and `id` is one it holds. */
  ghost predicate FromNewest(events: seq<Json>, i: nat, id: string, moves: int, decode: Decoder) {
    && i < |events|
    && Holds(events[i], moves, decode, id)
    && forall k :: i < k < |events| ==> !Findable(events[k], moves, decode)
  }

  lemma CandidatesIff(events: seq<Json>, depth: nat, decode: Decoder)
    ensures forall i :: 0 <= i < |events| ==>
              (Candidates(events, depth, decode)[i].None? <==> !Findable(events[i], MAX_DEPTH - depth, decode))
  {
    forall i | 0 <= i < |events|
      ensures Candidates(events, depth, decode)[i].None? <==> !Findable(events[i], MAX_DEPTH - depth, decode)
    {
      CandidateIff(events[i], depth, decode);
    }
  }

  /** An id is found exactly when some event holds one. */
  lemma FoundIffHeld(events: seq<Json>, depth: nat, decode: Decoder)
    ensures Newest(events, depth, decode).Some? <==>
              exists i :: 0 <= i < |events| && Findable(events[i], MAX_DEPTH - depth, decode)
  {
    CandidatesIff(events, depth, decode);
    LastSomeIs(Candidates(events, depth, decode));
  }

  /** The id that is found is one that the newest event with any holds. */
  lemma NewestWins(events: seq<Json>, depth: nat, decode: Decoder) returns (i: nat, id: string)
    requires Newest(events, depth, decode).Some?
    ensures FromNewest(events, i, id, MAX_DEPTH - depth, decode) && Newest(events, depth, decode) == Parse(id)
  {
    CandidatesIff(events, depth, decode);
    i := LastSomeAt(Candidates(events, depth, decode));
    id := CandidateIsHeld(events[i], depth, decode);
  }

  // -------------------------------------------------------------- which id is taken

  /** Of several named keys that lead to ids, the first of this list decides. */
  lemma NamedKeyOrder(fields: seq<(string, Json)>, depth: nat, decode: Decoder, k: nat)
    requires depth <= 4 && k < 8
    requires var keys := ["onchainPaymentId", "onchain_payment_id", "paymentIdHex", "payment_id_hex",
                          "paymentIdBytes32", "payment_id_bytes32", "onchainPaymentID", "onchain_paymentID"];
             && Lookup(fields, keys[k]).Some? && Extract(Lookup(fields, keys[k]).value, depth + 1, decode) != ""
             && forall i :: 0 <= i < k && Lookup(fields, keys[i]).Some? ==> Extract(Lookup(fields, keys[i]).value, depth + 1, decode) == ""
    ensures var keys := ["onchainPaymentId", "onchain_payment_id", "paymentIdHex", "payment_id_hex",
                         "paymentIdBytes32", "payment_id_bytes32", "onchainPaymentID", "onchain_paymentID"];
            Extract(Obj(fields), depth, decode) == Extract(Lookup(fields, keys[k]).value, depth + 1, decode)
  {
    var keys := ["onchainPaymentId", "onchain_payment_id", "paymentIdHex", "payment_id_hex",
                 "paymentIdBytes32", "payment_id_bytes32", "onchainPaymentID", "onchain_paymentID"];
    assert keys == PREFERRED;
    KeyOrder(fields, PREFERRED, depth + 1, decode, k);
    FirstOfPrefix(ValuesAt(fields, PREFERRED), Values(fields), depth + 1, decode);
  }

  lemma {:induction false} KeyOrder(fields: seq<(string, Json)>, keys: seq<string>, depth: nat, decode: Decoder, k: nat)
    requires k < |keys| && Lookup(fields, keys[k]).Some? && Extract(Lookup(fields, keys[k]).value, depth, decode) != ""
    requires forall i :: 0 <= i < k && Lookup(fields, keys[i]).Some? ==> Extract(Lookup(fields, keys[i]).value, depth, decode) == ""
    ensures FirstFound(ValuesAt(fields, keys), depth, decode) == Extract(Lookup(fields, keys[k]).value, depth, decode)
    decreases k
  {
    var vs := ValuesAt(fields, keys);
    if k == 0 {
      assert vs[0] == Lookup(fields, keys[0]).value;
    } else {
      var rest := keys[1..];
      assert rest[k - 1] == keys[k];
      assert forall i :: 0 <= i < k - 1 ==> rest[i] == keys[i + 1];
      KeyOrder(fields, rest, depth, decode, k - 1);
      if Lookup(fields, keys[0]).Some? {
        assert vs[1..] == ValuesAt(fields, rest);
      }
    }
  }

  /** Of the items of an array the first that leads to an id decides. */
  lemma {:induction false} ItemOrder(items: seq<Json>, depth: nat, decode: Decoder, k: nat)
    requires k < |items| && Extract(items[k], depth, decode) != ""
    requires forall i :: 0 <= i < k ==> Extract(items[i], depth, decode) == ""
    ensures FirstFound(items, depth, decode) == Extract(items[k], depth, decode)
  {
    if k > 0 {
      assert items[1..][k - 1] == items[k];
      ItemOrder(items[1..], depth, decode, k - 1);
    }
  }

  lemma ArrayOrder(items: seq<Json>, depth: nat, decode: Decoder, k: nat)
    requires depth <= 4 && k < |items| && Extract(items[k], depth + 1, decode) != ""
    requires forall i :: 0 <= i < k ==> Extract(items[i], depth + 1, decode) == ""
    ensures Extract(Arr(items), depth, decode) == Extract(items[k], depth + 1, decode)
  {
    ItemOrder(items, depth + 1, decode, k);
  }

  /** An object without an id under a named key gives the id of its first field that leads to one. */
  lemma OtherFieldOrder(fields: seq<(string, Json)>, depth: nat, decode: Decoder, k: nat)
    requires depth <= 4 && k < |fields| && Extract(fields[k].1, depth + 1, decode) != ""
    requires forall i :: 0 <= i < k ==> Extract(fields[i].1, depth + 1, decode) == ""
    requires forall key :: key in PREFERRED && Lookup(fields, key).Some? ==> Extract(Lookup(fields, key).value, depth + 1, decode) == ""
    ensures Extract(Obj(fields), depth, decode) == Extract(fields[k].1, depth + 1, decode)
  {
    var first, all := ValuesAt(fields, PREFERRED), ValuesAt(fields, PREFERRED) + Values(fields);
    NothingNamed(fields, PREFERRED, depth + 1, decode);
    forall i | 0 <= i < |first| + k ensures Extract(all[i], depth + 1, decode) == "" {
      assert i < |first| ==> all[i] == first[i];
      assert i >= |first| ==> all[i] == fields[i - |first|].1;
    }
    assert all[|first| + k] == fields[k].1;
    ItemOrder(all, depth + 1, decode, |first| + k);
  }

  lemma {:induction false} NothingNamed(fields: seq<(string, Json)>, keys: seq<string>, depth: nat, decode: Decoder)
    requires forall key :: key in keys && Lookup(fields, key).Some? ==> Extract(Lookup(fields, key).value, depth, decode) == ""
    ensures forall i :: 0 <= i < |ValuesAt(fields, keys)| ==> Extract(ValuesAt(fields, keys)[i], depth, decode) == ""
  {
    if keys != [] {
      assert keys[0] in keys;
      assert forall key :: key in keys[1..] ==> key in keys;
      NothingNamed(fields, keys[1..], depth, decode);
    }
  }

  /** The search follows four moves and no more: an id five moves down is not found. */
  lemma FourMoves(id: string, decode: Decoder)
    requires LooksLikeId(id)
    ensures MAX_DEPTH == 4
    ensures Extract(Arr([Arr([Arr([Arr([Str(id)])])])]), 0, decode) == TrimSpace(id)
    ensures Extract(Arr([Arr([Arr([Arr([Arr([Str(id)])])])])]), 0, decode) == ""
  {
    TextAnswer(id, 4, decode);
    IdIsNotBlank(id);
    OnlyItem(Str(id), 4, decode);
    OnlyItem(Arr([Str(id)]), 3, decode);
    OnlyItem(Arr([Arr([Str(id)])]), 2, decode);
    OnlyItem(Arr([Arr([Arr([Str(id)])])]), 1, decode);
    OnlyItem(Str(id), 5, decode);
    OnlyItem(Arr([Str(id)]), 4, decode);
    OnlyItem(Arr([Arr([Str(id)])]), 3, decode);
    OnlyItem(Arr([Arr([Arr([Str(id)])])]), 2, decode);
    OnlyItem(Arr([Arr([Arr([Arr([Str(id)])])])]), 1, decode);
  }

  lemma OnlyItem(j: Json, depth: nat, decode: Decoder)
    requires 1 <= depth <= MAX_DEPTH + 1
    ensures Extract(Arr([j]), depth - 1, decode) == Extract(j, depth, decode)
  {
    assert [j][1..] == [];
    assert FirstFound([], depth, decode) == "";
  }

  /** A string that is an id is its own answer, trimmed; one that is not gives what its JSON gives, one level down. */
  lemma TextAnswer(s: string, depth: nat, decode: Decoder)
    requires depth <= 4
    ensures LooksLikeId(s) ==> Extract(Str(s), depth, decode) == TrimSpace(s)
    ensures !LooksLikeId(s) && TrimSpace(s) != "" && decode(TrimSpace(s)).Some? ==>
              Extract(Str(s), depth, decode) == Extract(decode(TrimSpace(s)).value, depth + 1, decode)
  {
    ParsesIffLooksLikeId(s);
    if LooksLikeId(s) {
      IdIsNotBlank(s);
    }
  }

  // ------------------------------------------------------------------- map order

  /** Two index maps that undo each other: a rearrangement of n things. */
  predicate Rearranges(p: seq<nat>, q: seq<nat>, n: nat) {
    && |p| == n && |q| == n
    && (forall i :: 0 <= i < n ==> p[i] < n && q[p[i]] == i)
    && (forall i :: 0 <= i < n ==> q[i] < n && p[q[i]] == i)
  }

  /** The same metadata with the fields of every object, at every level, in any order. */
  ghost predicate Reordered(a: Json, b: Json)
    decreases a, 1
  {
    match a
    case Obj(fields) =>
      b.Obj? && |b.fields| == |fields| && exists p: seq<nat>, q: seq<nat> :: FieldsMatch(a, b, p, q)
    case Arr(items) =>
      b.Arr? && |b.items| == |items| && forall i :: 0 <= i < |items| ==> Reordered(items[i], b.items[i])
    case _ => a == b
  }

  /** Field i of one object is field p[i] of the other, up to the order inside. */
  ghost predicate FieldsMatch(a: Json, b: Json, p: seq<nat>, q: seq<nat>)
    requires a.Obj? && b.Obj? && |a.fields| == |b.fields|
    decreases a, 0
  {
    && Rearranges(p, q, |a.fields|)
    && forall i :: 0 <= i < |a.fields| ==>
         a.fields[i].0 == b.fields[p[i]].0 && Reordered(a.fields[i].1, b.fields[p[i]].1)
  }

  /** Decoding the same text twice gives the same metadata, its maps in any order. */
  ghost predicate SameDecoders(d: Decoder, e: Decoder) {
    forall s :: match d(s)
                case None => e(s).None?
                case Some(x) => e(s).Some? && Reordered(x, e(s).value)
  }

  lemma ChildOf(a: Json, b: Json, i: nat) returns (k: nat)
    requires Reordered(a, b) && i < |Children(a)|
    ensures k < |Children(b)| && Reordered(Children(a)[i], Children(b)[k])
  {
    k := i;
    if a.Obj? {
      var p: seq<nat>, q: seq<nat> :| FieldsMatch(a, b, p, q);
      k := p[i];
      assert Reordered(a.fields[i].1, b.fields[k].1);
    }
  }

  lemma ChildFor(a: Json, b: Json, k: nat) returns (i: nat)
    requires Reordered(a, b) && k < |Children(b)|
    ensures i < |Children(a)| && Reordered(Children(a)[i], Children(b)[k])
  {
    i := k;
    if a.Obj? {
      var p: seq<nat>, q: seq<nat> :| FieldsMatch(a, b, p, q);
      i := q[k];
      assert p[i] == k && Reordered(a.fields[i].1, b.fields[p[i]].1);
    }
  }

  /** The order in which maps are iterated, at any level and in decoded text, never decides whether an id is found. */
  lemma {:induction false} MapOrderIsIrrelevant(a: Json, b: Json, depth: nat, d: Decoder, e: Decoder)
    requires Reordered(a, b) && SameDecoders(d, e)
    ensures Extract(a, depth, d) == "" <==> Extract(b, depth, e) == ""
    decreases Levels(depth)
  {
    if depth <= MAX_DEPTH && a.Str? {
      TextOrder(a.text, depth, d, e);
    } else if depth <= MAX_DEPTH && Extract(a, depth, d) != "" {
      OrderForward(a, b, depth, d, e);
    } else if depth <= MAX_DEPTH && Extract(b, depth, e) != "" {
      OrderBackward(a, b, depth, d, e);
    }
  }

  lemma {:induction false} OrderForward(a: Json, b: Json, depth: nat, d: Decoder, e: Decoder)
    requires Reordered(a, b) && SameDecoders(d, e) && depth <= MAX_DEPTH && !a.Str? && Extract(a, depth, d) != ""
    ensures Extract(b, depth, e) != ""
    decreases Levels(depth), 0
  {
    var i := FoundChild(a, depth, d);
    var k := ChildOf(a, b, i);
    MapOrderIsIrrelevant(Children(a)[i], Children(b)[k], depth + 1, d, e);
    ChildIsEnough(b, depth, e, k);
  }

  lemma {:induction false} OrderBackward(a: Json, b: Json, depth: nat, d: Decoder, e: Decoder)
    requires Reordered(a, b) && SameDecoders(d, e) && depth <= MAX_DEPTH && !a.Str? && Extract(b, depth, e) != ""
    ensures Extract(a, depth, d) != ""
    decreases Levels(depth), 0
  {
    var k := FoundChild(b, depth, e);
    var i := ChildFor(a, b, k);
    MapOrderIsIrrelevant(Children(a)[i], Children(b)[k], depth + 1, d, e);
    ChildIsEnough(a, depth, d, i);
  }

  lemma FoundChild(j: Json, depth: nat, decode: Decoder) returns (i: nat)
    requires depth <= MAX_DEPTH && !j.Str? && Extract(j, depth, decode) != ""
    ensures i < |Children(j)| && Extract(Children(j)[i], depth + 1, decode) != ""
  {
    SomeChild(j, depth, decode);
    i :| 0 <= i < |Children(j)| && Extract(Children(j)[i], depth + 1, decode) == Extract(j, depth, decode);
  }

  lemma {:induction false} TextOrder(s: string, depth: nat, d: Decoder, e: Decoder)
    requires depth <= MAX_DEPTH && SameDecoders(d, e)
    ensures Extract(Str(s), depth, d) == "" <==> Extract(Str(s), depth, e) == ""
    decreases Levels(depth), 0
  {
    var x, y := d(TrimSpace(s)), e(TrimSpace(s));
    if x.Some? {
      MapOrderIsIrrelevant(x.value, y.value, depth + 1, d, e);
    }
  }
}
