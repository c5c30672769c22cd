/** The key listing of hub/kv.go over hub/store/kv.go: its prefix range, its cursor, and walks of a
    namespace that changes between pages. */
module KVWalk {
  import opened Base64url
  import opened ByteOrder
  import opened Names
  import opened Octetted
  import opened Text
  import opened Walks
  import opened Wrappers

  const MAX_KV_KEY_LENGTH: nat := 128

  // ---- The prefix ----

  predicate KeyChar(c: char) {
    IdentifierChar(c) || c == '.'
  }

  predicate KeyAlphabet(value: string) {
    forall i :: 0 <= i < |value| ==> KeyChar(value[i])
  }

  // The smallest string above everything with the prefix: its last byte, one up.
  function PrefixSuccessor(prefix: string): (above: string)
    requires prefix != "" && KeyAlphabet(prefix)
  {
    prefix[..|prefix| - 1] + [(prefix[|prefix| - 1] as int + 1) as char]
  }

  // The conditions KVList puts on a key for a prefix.
  predicate Selected(prefix: string, key: string) {
    prefix == "" || (KeyAlphabet(prefix) && AtMost(prefix, key) && Less(key, PrefixSuccessor(prefix)))
  }

  /** The byte range selects exactly the keys with the prefix, and a prefix outside the alphabet
      selects none because no key has it. */
  lemma PrefixSelects(prefix: string, key: string)
    requires DottedName(key)
    ensures Selected(prefix, key) <==> HasPrefix(key, prefix)
  {
    if prefix != "" {
      if KeyAlphabet(prefix) {
        var last := prefix[|prefix| - 1];
        assert prefix == prefix[..|prefix| - 1] + [last];
        RangeIsPrefix(key, prefix[..|prefix| - 1], last, (last as int + 1) as char);
      } else {
        PrefixInAlphabet(prefix, key);
      }
    }
  }

  lemma PrefixInAlphabet(prefix: string, key: string)
    requires DottedName(key)
    ensures HasPrefix(key, prefix) ==> KeyAlphabet(prefix)
  {
    DottedNameChars(key);
    assert forall i :: 0 <= i < |key| ==> key[i] in key;
  }

  // ---- The cursor ----

  lemma KeyBytes(key: string)
    requires DottedName(key)
    ensures IsBytes(key)
  {
    DottedNameChars(key);
    forall i | 0 <= i < |key| ensures key[i] as int < 256 {
      assert key[i] in key;
    }
  }

  function EncodeKVCursor(key: string): (cursor: string)
    requires IsBytes(key)
  {
    Encode(Bytes(key))
  }

  /** parseKVCursor: no cursor is the first page, and one that does not decode to a key is refused. */
  method ParseKVCursor(value: string) returns (position: Option<string>)
    ensures position == Parsed(value)
  {
    if value == "" {
      return Some("");
    }
    var decoded := Decode(value);
    if decoded.None? {
      return None;
    }
    var ok := ValidKVName(FromBytes(decoded.value), MAX_KV_KEY_LENGTH);
    return if ok then Some(FromBytes(decoded.value)) else None;
  }

  predicate IsKey(key: string) {
    |key| <= MAX_KV_KEY_LENGTH && DottedName(key)
  }

  function Parsed(value: string): (position: Option<string>) {
    if value == "" then Some("")
    else
      match Decode(value)
      case None => None
      case Some(octets) => if IsKey(FromBytes(octets)) then Some(FromBytes(octets)) else None
  }

  /** Every cursor issued parses back to the key it was issued for. */
  lemma IssuedParsesBack(key: string)
    requires IsKey(key)
    ensures IsBytes(key)
    ensures Parsed(EncodeKVCursor(key)) == Some(key)
  {
    KeyBytes(key);
    EmptyIsNoName();
    DecodeOfEncode(Bytes(key));
    FromBytesOfBytes(key);
    assert Decode("") == Some([]);
    assert Bytes(key) != [];
  }

  /** A cursor that is accepted is one the hub could have issued exactly when it is canonical: the
      decoder underneath also takes line ends and ignores the spare bits of the last quantum, so
      "refused when it is not one this hub could have issued" does not hold of those. */
  lemma AcceptedIsIssued(value: string)
    requires value != "" && Parsed(value).Some?
    ensures IsBytes(Parsed(value).value)
    ensures EncodeKVCursor(Parsed(value).value) == value <==> Canonical(value)
  {
    var octets := Decode(value).value;
    BytesOfFromBytes(octets);
    EncodeOfDecode(value);
  }

  lemma {:induction false} SkipTrailing(text: string)
    ensures SkipLineEnds(text + "\n") == SkipLineEnds(text)
  {
    if text == "" {
      assert "\n"[1..] == "";
    } else {
      SkipTrailing(text[1..]);
      assert (text + "\n")[1..] == text[1..] + "\n";
    }
  }

  /** Such cursors exist for every key: its own with a line end after it is accepted too. */
  lemma LineEndAccepted(key: string)
    requires IsKey(key)
    ensures IsBytes(key)
    ensures Parsed(EncodeKVCursor(key) + "\n") == Some(key)
  {
    IssuedParsesBack(key);
    SkipTrailing(EncodeKVCursor(key));
  }

  // ---- One page ----

  datatype KeyPage = KeyPage(keys: seq<string>, nextCursor: Option<string>)

  // The listing of a store's live keys, as places in key order.
  ghost function Listed(live: set<string>, prefix: string): (places: set<Place>) {
    set key | key in live && Selected(prefix, key) :: [key]
  }

  // The place after which a listing resumes.
  function ResumesAt(position: string): (after: Place) {
    if position == "" then [] else [position]
  }

  function Places(keys: seq<string>): (places: seq<Place>)
    ensures |places| == |keys| && forall i :: 0 <= i < |keys| ==> places[i] == [keys[i]]
  {
    seq(|keys|, i requires 0 <= i < |keys| => [keys[i]])
  }

  // The cursor names the last key of the page, or there is nothing after it.
  ghost predicate Resumes(page: KeyPage, next: Option<Place>) {
    match page.nextCursor
    case None => next == None
    case Some(cursor) =>
      && page.keys != []
      && var last := page.keys[|page.keys| - 1];
      IsKey(last) && Parsed(cursor) == Some(last) && next == Some([last])
  }

  /** What a request with a cursor is answered against a store: one of the pages that may follow the
      place the cursor names. */
  ghost predicate IsAnswer(live: set<string>, prefix: string, cursor: string, limit: nat, page: KeyPage)
    requires limit > 0
  {
    && Parsed(cursor).Some?
    && exists next :: IsPage(Listed(live, prefix), ResumesAt(Parsed(cursor).value), limit, Places(page.keys), next) &&
                      Resumes(page, next)
  }

  method IssueKVCursor(key: string) returns (cursor: string)
    requires IsKey(key)
    ensures Parsed(cursor) == Some(key)
  {
    IssuedParsesBack(key);
    cursor := EncodeKVCursor(key);
  }

  /** handleListKVKeys: `found` is what KVList reads, one row past the limit, after the cursor's
      place. A cursor that does not parse is refused. */
  method ListKVKeys(ghost live: set<string>, ghost prefix: string, cursor: string, limit: nat, found: seq<string>)
    returns (page: Option<KeyPage>)
    requires limit > 0 && forall key :: key in found ==> IsKey(key)
    requires Parsed(cursor).Some? ==>
               IsRead(Listed(live, prefix), ResumesAt(Parsed(cursor).value), limit + 1, Places(found))
    ensures page.None? <==> Parsed(cursor).None?
    ensures page.Some? ==> IsAnswer(live, prefix, cursor, limit, page.value)
  {
    var after := ParseKVCursor(cursor);
    if after.None? {
      return None;
    }
    var keys, nextCursor := found, None;
    if |found| > limit {
      assert found[limit - 1] in found;
      var issued := IssueKVCursor(found[limit - 1]);
      keys, nextCursor := found[..limit], Some(issued);
    }
    page := Some(KeyPage(keys, nextCursor));
    assert Places(keys) == Places(found)[..|keys|];
    ghost var next := Page(Places(found), limit).1;
    assert IsPage(Listed(live, prefix), ResumesAt(after.value), limit, Places(keys), next);
    assert Resumes(page.value, next);
  }

  // ---- The walk ----

  /** Following nextCursor to the end: each request carries the cursor of the answer before it, a
      limit of its own, and meets the store as it then is. */
  ghost predicate IsKeyWalk(stores: seq<set<string>>, prefix: string, cursor: string, limits: seq<nat>, answers: seq<KeyPage>)
    decreases |answers|
  {
    && answers != [] && |stores| == |limits| == |answers| && limits[0] > 0
    && IsAnswer(stores[0], prefix, cursor, limits[0], answers[0])
    && (if |answers| == 1 then answers[0].nextCursor == None
        else answers[0].nextCursor.Some? &&
             IsKeyWalk(stores[1..], prefix, answers[0].nextCursor.value, limits[1..], answers[1..]))
  }

  ghost function Listings(stores: seq<set<string>>, prefix: string): (listings: seq<set<Place>>)
    ensures |listings| == |stores| && forall i :: 0 <= i < |stores| ==> listings[i] == Listed(stores[i], prefix)
  {
    seq(|stores|, i requires 0 <= i < |stores| => Listed(stores[i], prefix))
  }

  function PagesOf(answers: seq<KeyPage>): (pages: seq<seq<Place>>)
    ensures |pages| == |answers| && forall i :: 0 <= i < |answers| ==> pages[i] == Places(answers[i].keys)
  {
    seq(|answers|, i requires 0 <= i < |answers| => Places(answers[i].keys))
  }

  lemma TailPages(answers: seq<KeyPage>)
    requires answers != []
    ensures PagesOf(answers)[1..] == PagesOf(answers[1..])
  {
  }

  lemma TailListings(stores: seq<set<string>>, prefix: string)
    requires stores != []
    ensures Listings(stores, prefix)[1..] == Listings(stores[1..], prefix)
  {
  }

  /** Following cursors is walking. */
  lemma {:induction false} CursorsWalk(stores: seq<set<string>>, prefix: string, cursor: string, limits: seq<nat>, answers: seq<KeyPage>)
    requires IsKeyWalk(stores, prefix, cursor, limits, answers)
    ensures Parsed(cursor).Some?
    ensures IsWalk(Listings(stores, prefix), ResumesAt(Parsed(cursor).value), limits, PagesOf(answers))
    decreases |answers|
  {
    var after := ResumesAt(Parsed(cursor).value);
    var next :| IsPage(Listed(stores[0], prefix), after, limits[0], Places(answers[0].keys), next) && Resumes(answers[0], next);
    if |answers| > 1 {
      var nextCursor := answers[0].nextCursor.value;
      CursorsWalk(stores[1..], prefix, nextCursor, limits[1..], answers[1..]);
      EmptyIsNoName();
      TailPages(answers);
      TailListings(stores, prefix);
    }
  }

  /** Walking the keys of a namespace by its cursors while keys come, go and expire and limits
      change: the keys listed are strictly ascending, so none comes twice; every key with the prefix
      that was live at every page is listed, and what is listed was live at some page. */
  lemma KeysWalked(stores: seq<set<string>>, prefix: string, limits: seq<nat>, answers: seq<KeyPage>, key: string)
    requires IsKeyWalk(stores, prefix, "", limits, answers) && DottedName(key)
    ensures Ascending(Flatten(PagesOf(answers)))
    ensures HasPrefix(key, prefix) && (forall i :: 0 <= i < |stores| ==> key in stores[i]) ==> [key] in Flatten(PagesOf(answers))
    ensures [key] in Flatten(PagesOf(answers)) ==> HasPrefix(key, prefix) && exists i :: 0 <= i < |stores| && key in stores[i]
  {
    var listings, pages := Listings(stores, prefix), PagesOf(answers);
    CursorsWalk(stores, prefix, "", limits, answers);
    WalkAscends(listings, [], limits, pages);
    PrefixSelects(prefix, key);
    if HasPrefix(key, prefix) && forall i :: 0 <= i < |stores| ==> key in stores[i] {
      WalkMeets(listings, [], limits, pages, [key]);
    }
    if [key] in Flatten(pages) {
      var i := WalkLists(listings, [], limits, pages, [key]);
      assert [key] in Listed(stores[i], prefix);
    }
  }
}
