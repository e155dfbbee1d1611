/** Server/src/utils/utils.ts: the share-hash generator and the key filters
    that shape assignment documents before they are sent to the client. */
module Utils {
  import opened Js

  // ---------------------------------------------------------------- randomHash

  /** The values of `Math.floor(Math.random() * len)` over the `len` turns
      of the loop: one index per turn, each in [0, len). The source draws
      from [0, len), not from [0, userId.length). */
  predicate ValidDraws(draws: seq<nat>, len: nat)
  {
    |draws| == len && forall i | 0 <= i < |draws| :: draws[i] < len
  }

  /** What `hash += userId[k]` appends: the character at `k`, or the text
      "undefined" when `k` is past the end of `userId`. */
  function Piece(userId: string, k: nat): string
  {
    if k < |userId| then [userId[k]] else "undefined"
  }

  /** The hash that a given sequence of draws produces. */
  function HashFromDraws(userId: string, draws: seq<nat>): string
    decreases |draws|
  {
    if |draws| == 0 then ""
    else HashFromDraws(userId, draws[..|draws| - 1]) + Piece(userId, draws[|draws| - 1])
  }

  /** `randomHash(len, userId)`, with the random draws passed in. */
  method RandomHash(len: nat, userId: string, draws: seq<nat>) returns (hash: string)
    requires ValidDraws(draws, len)
    ensures hash == HashFromDraws(userId, draws)
  {
    hash := "";
    var i := 0;
    while i < len
      invariant 0 <= i <= len
      invariant hash == HashFromDraws(userId, draws[..i])
    {
      assert draws[..i + 1][..i] == draws[..i];
      hash := hash + Piece(userId, draws[i]);
      i := i + 1;
    }
    assert draws[..len] == draws;
  }

  /** When every draw lands inside `userId`, the hash has one character per
      draw, and character `i` is `userId[draws[i]]`. */
  lemma {:induction false} HashFromDrawsInside(userId: string, draws: seq<nat>)
    requires forall i | 0 <= i < |draws| :: draws[i] < |userId|
    ensures |HashFromDraws(userId, draws)| == |draws|
    ensures forall i | 0 <= i < |draws| :: HashFromDraws(userId, draws)[i] == userId[draws[i]]
    decreases |draws|
  {
    if |draws| > 0 {
      var front := draws[..|draws| - 1];
      HashFromDrawsInside(userId, front);
      var h := HashFromDraws(userId, draws);
      assert h == HashFromDraws(userId, front) + [userId[draws[|draws| - 1]]];
      forall i | 0 <= i < |draws| ensures h[i] == userId[draws[i]] {
        if i < |draws| - 1 {
          assert h[i] == HashFromDraws(userId, front)[i];
          assert front[i] == draws[i];
        }
      }
    }
  }

  /** For `len <= userId.length`, `randomHash(len, userId)` has exactly
      `len` characters, and each of them is one of the first `len`
      characters of `userId`. */
  lemma RandomHashShape(len: nat, userId: string, draws: seq<nat>)
    requires ValidDraws(draws, len) && len <= |userId|
    ensures |HashFromDraws(userId, draws)| == len
    ensures forall i | 0 <= i < len ::
              draws[i] < len && HashFromDraws(userId, draws)[i] == userId[draws[i]]
  {
    HashFromDrawsInside(userId, draws);
  }

  /** With no user id (`userId ? userId : ""` on the callers' side) every
      turn appends "undefined". */
  lemma {:induction false} RandomHashWithoutUser(draws: seq<nat>)
    ensures |HashFromDraws("", draws)| == 9 * |draws|
    ensures forall i | 0 <= i < |draws| :: HashFromDraws("", draws)[9 * i..9 * i + 9] == "undefined"
    decreases |draws|
  {
    if |draws| > 0 {
      var front := draws[..|draws| - 1];
      RandomHashWithoutUser(front);
      var h := HashFromDraws("", draws);
      var f := HashFromDraws("", front);
      assert h == f + "undefined";
      forall i | 0 <= i < |draws| ensures h[9 * i..9 * i + 9] == "undefined" {
        if i < |draws| - 1 {
          assert h[9 * i..9 * i + 9] == f[9 * i..9 * i + 9];
        }
      }
    }
  }

  // ---------------------------------------------------------------- key filters

  /** The keys `filterObjectProperties` copies. */
  const ListAllowedKeys: seq<string> :=
    ["Name", "Class", "Section", "RollNo", "Department", "Email", "PhoneNumber",
     "hash", "Title", "Deadline", "userId", "_id"]

  /** The keys `filterSecondObjectProperties` copies. */
  const ShareAllowedKeys: seq<string> :=
    ["Name", "Class", "Section", "RollNo", "Department", "Email", "PhoneNumber",
     "Title", "Deadline", "userId"]

  /** The keys `ThirdfilterObjectProperties` copies. */
  const SummaryAllowedKeys: seq<string> :=
    ["hash", "Title", "Deadline", "userId", "_id", "Description"]

  /** The seven student-field flags of an assignment. */
  const FlagKeys: seq<string> :=
    ["Name", "Class", "Section", "RollNo", "Department", "Email", "PhoneNumber"]

  /** The seven flags are distinct keys. */
  lemma FlagKeysDistinct()
    ensures forall i, j | 0 <= i < j < |FlagKeys| :: FlagKeys[i] != FlagKeys[j]
  {
  }

  /** No flag is one of the keys `/generate` sets itself. */
  lemma FlagKeysApart()
    ensures forall k | k in FlagKeys ::
              && k != "hash" && k != "userId" && k != "_id" && k != "Questions"
              && k != "Title" && k != "Description" && k != "Deadline"
  {
  }

  /** The defined entries of `doc` under the keys in `allowed`, values
      unchanged. */
  function Project(doc: Record, allowed: seq<string>): Record
  {
    map k | k in allowed && Defined(doc, k) :: doc[k]
  }

  /** The loop `for (const key of allowedKeys) if (plain[key] !== undefined)
      filtered[key] = plain[key]`. */
  method CopyAllowed(doc: Record, allowed: seq<string>) returns (filtered: Record)
    ensures filtered == Project(doc, allowed)
  {
    filtered := map[];
    var i := 0;
    while i < |allowed|
      invariant 0 <= i <= |allowed|
      invariant filtered == Project(doc, allowed[..i])
    {
      var key := allowed[i];
      if Defined(doc, key) {
        filtered := filtered[key := doc[key]];
      }
      assert allowed[..i + 1] == allowed[..i] + [key];
      i := i + 1;
    }
    assert allowed[..|allowed|] == allowed;
  }

  /** `filterObjectProperties`: one filtered record per document, in order;
      the trailing `delete`s of `__v`, `Questions` and `Description` remove
      nothing, because those keys are never copied. */
  method FilterObjectProperties(docs: seq<Record>) returns (out: seq<Record>)
    ensures |out| == |docs|
    ensures forall i | 0 <= i < |docs| :: out[i] == Project(docs[i], ListAllowedKeys)
  {
    out := [];
    var i := 0;
    while i < |docs|
      invariant 0 <= i <= |docs|
      invariant |out| == i
      invariant forall j | 0 <= j < i :: out[j] == Project(docs[j], ListAllowedKeys)
    {
      var filtered := CopyAllowed(docs[i], ListAllowedKeys);
      ListKeysOmitDeleted();
      ProjectWithout(docs[i], ListAllowedKeys, {"__v", "Questions", "Description"});
      filtered := filtered - {"__v", "Questions", "Description"};
      out := out + [filtered];
      i := i + 1;
    }
  }

  /** The keys `filterObjectProperties` deletes are not among those it copies. */
  lemma ListKeysOmitDeleted()
    ensures "__v" !in ListAllowedKeys && "Questions" !in ListAllowedKeys && "Description" !in ListAllowedKeys
  {
  }

  /** Deleting keys that are not allowed leaves a projection as it is. */
  lemma ProjectWithout(doc: Record, allowed: seq<string>, gone: set<string>)
    requires forall k | k in gone :: k !in allowed
    ensures Project(doc, allowed) - gone == Project(doc, allowed)
  {
  }

  /** Each record `filterObjectProperties` returns holds only allowed keys
      that were defined in its document, with their values unchanged; the
      assignment text (`Questions`) and `Description` never appear. */
  lemma ListProjectionShape(doc: Record)
    ensures forall k | k in Project(doc, ListAllowedKeys) ::
              k in ListAllowedKeys && Defined(doc, k) && Project(doc, ListAllowedKeys)[k] == doc[k]
    ensures forall k | k in ListAllowedKeys && Defined(doc, k) :: k in Project(doc, ListAllowedKeys)
    ensures "Questions" !in Project(doc, ListAllowedKeys)
    ensures "Description" !in Project(doc, ListAllowedKeys)
    ensures "__v" !in Project(doc, ListAllowedKeys)
  {
  }

  /** `JSON.parse(JSON.stringify(obj))` on a flat record: entries whose
      value is undefined disappear and an ObjectId becomes its hex text. */
  function JsonRoundTrip(r: Record): Record
  {
    map k | k in r && r[k] != Undefined :: if r[k].ObjectId? then Str(r[k].hex) else r[k]
  }

  /** The value `filterSecondObjectProperties` copies for `key`: an
      ObjectId `userId` is rendered with `toString()`. */
  function ShareValue(key: string, v: Value): Value
  {
    if key == "userId" && v.ObjectId? then Str(v.hex) else v
  }

  /** The entries that the spread `{...filtered, _id: undefined, ...}`
      overwrites with undefined. */
  const ShareHiddenKeys: set<string> := {"_id", "__v", "hash", "Questions", "Description"}

  function HideKeys(r: Record): Record
  {
    r + map k | k in ShareHiddenKeys :: Undefined
  }

  /** The record `filterSecondObjectProperties` returns, stated directly:
      the defined share-view keys with `userId` rendered as text. */
  function ShareView(doc: Record): Record
  {
    map k | k in ShareAllowedKeys && Defined(doc, k) ::
      if doc[k].ObjectId? then Str(doc[k].hex) else doc[k]
  }

  /** `filterSecondObjectProperties`. */
  method FilterSecondObjectProperties(doc: Record) returns (view: Record)
    ensures view == ShareView(doc)
  {
    var filtered: Record := map[];
    var i := 0;
    while i < |ShareAllowedKeys|
      invariant 0 <= i <= |ShareAllowedKeys|
      invariant filtered.Keys == set k | k in ShareAllowedKeys[..i] && Defined(doc, k)
      invariant forall k | k in filtered :: filtered[k] == ShareValue(k, doc[k])
    {
      var key := ShareAllowedKeys[i];
      if Defined(doc, key) {
        filtered := filtered[key := ShareValue(key, doc[key])];
      }
      assert ShareAllowedKeys[..i + 1] == ShareAllowedKeys[..i] + [key];
      i := i + 1;
    }
    assert ShareAllowedKeys[..|ShareAllowedKeys|] == ShareAllowedKeys;
    view := JsonRoundTrip(HideKeys(filtered));
    ShareViewAgrees(doc, filtered, view);
  }

  lemma ShareViewAgrees(doc: Record, filtered: Record, view: Record)
    requires filtered.Keys == set k | k in ShareAllowedKeys && Defined(doc, k)
    requires forall k | k in filtered :: filtered[k] == ShareValue(k, doc[k])
    requires view == JsonRoundTrip(HideKeys(filtered))
    ensures view == ShareView(doc)
  {
    ShareKeysApart();
    HiddenEntriesVanish(filtered, ShareHiddenKeys);
    assert JsonRoundTrip(filtered).Keys == ShareView(doc).Keys;
  }

  /** No key the share view copies is one the spread hides. */
  lemma ShareKeysApart()
    ensures forall k | k in ShareAllowedKeys :: k !in ShareHiddenKeys
  {
  }

  /** Entries set to undefined for keys the record does not hold vanish in
      the JSON round trip. */
  lemma HiddenEntriesVanish(r: Record, hidden: set<string>)
    requires r.Keys !! hidden
    ensures JsonRoundTrip(r + map k | k in hidden :: Undefined) == JsonRoundTrip(r)
  {
    var h := r + map k | k in hidden :: Undefined;
    assert forall k | k in r :: h[k] == r[k];
    assert JsonRoundTrip(h).Keys == JsonRoundTrip(r).Keys;
  }

  /** The shared view keeps only the seven flags, Title, Deadline and
      userId; `_id`, `__v`, the share hash, the questions and the
      description are never sent to the student. */
  lemma ShareViewKeys(doc: Record)
    ensures forall k | k in ShareView(doc) :: k in ShareAllowedKeys && Defined(doc, k)
    ensures forall k | k in ShareAllowedKeys && Defined(doc, k) :: k in ShareView(doc)
    ensures ShareHiddenKeys !! ShareView(doc).Keys
  {
  }

  /** An ObjectId `userId` is sent as its string form, and every kept
      value that is not an ObjectId is sent unchanged. */
  lemma ShareViewUserId(doc: Record, hex: string)
    requires Get(doc, "userId") == ObjectId(hex)
    ensures "userId" in ShareView(doc) && ShareView(doc)["userId"] == Str(hex)
    ensures forall k | k in ShareView(doc) && !doc[k].ObjectId? :: ShareView(doc)[k] == doc[k]
  {
  }

  /** `ThirdfilterObjectProperties`: one record per document, in order,
      holding only hash, Title, Deadline, userId, _id and Description; its
      trailing `delete`s of `__v`, `Questions` and the seven flags remove
      nothing. */
  method ThirdFilterObjectProperties(docs: seq<Record>) returns (out: seq<Record>)
    ensures |out| == |docs|
    ensures forall i | 0 <= i < |docs| :: out[i] == Project(docs[i], SummaryAllowedKeys)
  {
    out := [];
    var i := 0;
    while i < |docs|
      invariant 0 <= i <= |docs|
      invariant |out| == i
      invariant forall j | 0 <= j < i :: out[j] == Project(docs[j], SummaryAllowedKeys)
    {
      var filtered := CopyAllowed(docs[i], SummaryAllowedKeys);
      SummaryKeysOmitDeleted();
      ProjectWithout(docs[i], SummaryAllowedKeys, SummaryDeletedKeys);
      filtered := filtered - {"__v", "Questions", "Class", "Section", "RollNo",
                              "Department", "Email", "PhoneNumber", "Name"};
      out := out + [filtered];
      i := i + 1;
    }
  }

  /** The keys `ThirdfilterObjectProperties` deletes. */
  const SummaryDeletedKeys: set<string> :=
    {"__v", "Questions", "Class", "Section", "RollNo", "Department", "Email", "PhoneNumber", "Name"}

  /** None of them is among the keys it copies. */
  lemma SummaryKeysOmitDeleted()
    ensures forall k | k in SummaryDeletedKeys :: k !in SummaryAllowedKeys
  {
  }

  /** The summary records carry no student-field flag and no questions. */
  lemma SummaryProjectionShape(doc: Record)
    ensures forall k | k in Project(doc, SummaryAllowedKeys) ::
              k in SummaryAllowedKeys && Project(doc, SummaryAllowedKeys)[k] == doc[k]
    ensures forall k | k in FlagKeys :: k !in Project(doc, SummaryAllowedKeys)
    ensures "Questions" !in Project(doc, SummaryAllowedKeys)
  {
  }

  // ---------------------------------------------------------------- filterNullValues

  /** The own entries whose value is not null. */
  function WithoutNulls(data: Record): Record
  {
    map k | k in data && data[k] != Null :: data[k]
  }

  /** `filterNullValues`: a for-in loop over the own keys. */
  method FilterNullValues(data: Record) returns (filtered: Record)
    ensures filtered == WithoutNulls(data)
  {
    filtered := map[];
    var pending := data.Keys;
    while pending != {}
      invariant pending <= data.Keys
      invariant filtered == map k | k in data.Keys - pending && data[k] != Null :: data[k]
      decreases pending
    {
      var key :| key in pending;
      if data[key] != Null {
        filtered := filtered[key := data[key]];
      }
      pending := pending - {key};
    }
  }

  /** `filterNullValues` keeps exactly the keys whose value is not null,
      with their values, and is idempotent. */
  lemma WithoutNullsShape(data: Record)
    ensures forall k :: k in WithoutNulls(data) <==> k in data && data[k] != Null
    ensures forall k | k in WithoutNulls(data) :: WithoutNulls(data)[k] == data[k]
    ensures WithoutNulls(WithoutNulls(data)) == WithoutNulls(data)
  {
  }
}
