/** The assignment routes of Server/src/Routes/assignment.routes.ts over an
    in-memory store: the `assignments` and `submissions` collections are
    sequences of documents that the handlers read and change. */
module AssignmentRoutes {
  import opened Js
  import Utils

  // ---------------------------------------------------------------- documents

  /** The document `/generate` stores (assignment.routes.ts:25-39): each
      flag is the given value or false when it is falsy, the hash is the one
      generated, the owner is the caller, and the rest is copied from the
      body. Fields whose value is undefined are not stored. */
  function NewAssignment(body: Record, hash: string, userId: string, id: string): Record
  {
    map k | k in NewAssignmentKeys(body) :: NewAssignmentValue(body, hash, userId, id, k)
  }

  /** The body fields `/generate` copies as they are. */
  const CopiedKeys: seq<string> := ["Questions", "Title", "Description", "Deadline"]

  /** The keys of the stored document: the flags, the hash, the owner, the
      id, and the copied fields the body defines. */
  function NewAssignmentKeys(body: Record): set<string>
  {
    (set k | k in Utils.FlagKeys) + {"hash", "userId", "_id"}
    + (set k | k in CopiedKeys && Defined(body, k))
  }

  /** The value the stored document holds under `k`. */
  function NewAssignmentValue(body: Record, hash: string, userId: string, id: string, k: string): Value
  {
    if k in Utils.FlagKeys then Or(Get(body, k), Bool(false))
    else if k == "hash" then Str(hash)
    else if k == "userId" then ObjectId(userId)
    else if k == "_id" then ObjectId(id)
    else Get(body, k)
  }

  /** The three fields `/generate` insists on (assignment.routes.ts:16). */
  predicate GenerateAccepted(body: Record)
  {
    Truthy(Get(body, "Title")) && Truthy(Get(body, "Questions")) && Truthy(Get(body, "Deadline"))
  }

  /** A stored assignment keeps each flag that was truthy in the request and
      holds false for every other; it carries the generated hash, its owner
      and the request's title, questions and deadline. */
  lemma NewAssignmentFields(body: Record, hash: string, userId: string, id: string)
    requires GenerateAccepted(body)
    ensures var a := NewAssignment(body, hash, userId, id);
            && (forall k | k in Utils.FlagKeys ::
                  k in a && (a[k] == if Truthy(Get(body, k)) then Get(body, k) else Bool(false)))
            && (forall k | k in Utils.FlagKeys :: Truthy(a[k]) <==> Truthy(Get(body, k)))
            && a["hash"] == Str(hash) && a["userId"] == ObjectId(userId) && a["_id"] == ObjectId(id)
            && a["Title"] == body["Title"] && a["Questions"] == body["Questions"]
            && a["Deadline"] == body["Deadline"]
  {
    StoredFlags(body, hash, userId, id);
    StoredStamps(body, hash, userId, id);
    StoredCopies(body, hash, userId, id);
  }

  /** The flags part of `NewAssignmentFields`. */
  lemma StoredFlags(body: Record, hash: string, userId: string, id: string)
    ensures var a := NewAssignment(body, hash, userId, id);
            && (forall k | k in Utils.FlagKeys ::
                  k in a && (a[k] == if Truthy(Get(body, k)) then Get(body, k) else Bool(false)))
            && (forall k | k in Utils.FlagKeys :: Truthy(a[k]) <==> Truthy(Get(body, k)))
  {
  }

  /** The hash, owner and id part of `NewAssignmentFields`. */
  lemma StoredStamps(body: Record, hash: string, userId: string, id: string)
    ensures var a := NewAssignment(body, hash, userId, id);
            a["hash"] == Str(hash) && a["userId"] == ObjectId(userId) && a["_id"] == ObjectId(id)
  {
    Utils.FlagKeysApart();
  }

  /** The copied-fields part of `NewAssignmentFields`. */
  lemma StoredCopies(body: Record, hash: string, userId: string, id: string)
    requires GenerateAccepted(body)
    ensures var a := NewAssignment(body, hash, userId, id);
            a["Title"] == body["Title"] && a["Questions"] == body["Questions"]
            && a["Deadline"] == body["Deadline"]
  {
    Utils.FlagKeysApart();
  }

  /** `{ _id, userId }` matches the document: `_id` is the document's id
      in text form and the document belongs to the caller. */
  predicate OwnedMatch(doc: Record, id: Value, userId: string)
  {
    id.Str? && Get(doc, "_id") == ObjectId(id.s) && Get(doc, "userId") == ObjectId(userId)
  }

  /** Position of the first document `findOneAndDelete` matches, if any. */
  function FirstOwnedMatch(docs: seq<Record>, id: Value, userId: string): (r: Option<nat>)
    ensures r.Some? ==> r.value < |docs| && OwnedMatch(docs[r.value], id, userId)
                        && forall j | 0 <= j < r.value :: !OwnedMatch(docs[j], id, userId)
    ensures r.None? ==> forall j | 0 <= j < |docs| :: !OwnedMatch(docs[j], id, userId)
    decreases |docs|
  {
    if docs == [] then None
    else if OwnedMatch(docs[0], id, userId) then Some(0)
    else match FirstOwnedMatch(docs[1..], id, userId)
      case None => None
      case Some(j) => Some(j + 1)
  }

  /** The collection after `findOneAndDelete({ _id, userId })`. */
  function DeleteOwned(docs: seq<Record>, id: Value, userId: string): seq<Record>
  {
    match FirstOwnedMatch(docs, id, userId)
    case None => docs
    case Some(i) => docs[..i] + docs[i + 1..]
  }

  /** Delete removes exactly one document, one that matches both the id and
      the caller, when there is one; every document that does not match
      stays, in order, and nothing changes when none matches. */
  lemma DeleteOwnedEffect(docs: seq<Record>, id: Value, userId: string)
    ensures (exists j | 0 <= j < |docs| :: OwnedMatch(docs[j], id, userId)) ==>
              |DeleteOwned(docs, id, userId)| == |docs| - 1
    ensures (forall j | 0 <= j < |docs| :: !OwnedMatch(docs[j], id, userId)) ==>
              DeleteOwned(docs, id, userId) == docs
    ensures forall d | d in docs && !OwnedMatch(d, id, userId) :: d in DeleteOwned(docs, id, userId)
    ensures forall d | d in DeleteOwned(docs, id, userId) :: d in docs
  {
    match FirstOwnedMatch(docs, id, userId)
    case None =>
    case Some(i) =>
      var rest := docs[..i] + docs[i + 1..];
      forall d | d in docs && !OwnedMatch(d, id, userId) ensures d in rest {
        var j :| 0 <= j < |docs| && docs[j] == d;
        if j < i {
          assert rest[j] == d;
        } else {
          assert j != i;
          assert rest[j - 1] == d;
        }
      }
  }

  /** The documents `find({ userId })` returns, in collection order. */
  function OwnedBy(docs: seq<Record>, userId: string): (r: seq<Record>)
    ensures forall d | d in r :: d in docs && Get(d, "userId") == ObjectId(userId)
    ensures forall d | d in docs && Get(d, "userId") == ObjectId(userId) :: d in r
    decreases |docs|
  {
    if docs == [] then []
    else
      var front := OwnedBy(docs[..|docs| - 1], userId);
      var last := docs[|docs| - 1];
      assert docs == docs[..|docs| - 1] + [last];
      if Get(last, "userId") == ObjectId(userId) then front + [last] else front
  }

  /** `data.map(a => a.hash).filter(h => h !== undefined)`
      (assignment.routes.ts:117, 153): the defined hashes, in order. */
  function DefinedHashes(docs: seq<Record>): seq<Value>
    decreases |docs|
  {
    if docs == [] then []
    else
      var h := Get(docs[|docs| - 1], "hash");
      DefinedHashes(docs[..|docs| - 1]) + (if h != Undefined then [h] else [])
  }

  /** The query `{ hash: h }`: equal values match, and a null query also
      matches documents without the field. */
  predicate HashQueryMatches(doc: Record, h: Value)
  {
    if h == Null then Get(doc, "hash") == Null || Get(doc, "hash") == Undefined
    else Get(doc, "hash") == h
  }

  /** `(await SubmissionModel.find({ hash: h })).length`. */
  function CountMatching(subs: seq<Record>, h: Value): nat
    decreases |subs|
  {
    if subs == [] then 0
    else CountMatching(subs[..|subs| - 1], h) + (if HashQueryMatches(subs[|subs| - 1], h) then 1 else 0)
  }

  /** The positions of `subs` holding a submission the query matches. */
  function MatchPositions(subs: seq<Record>, h: Value): set<nat>
  {
    set i: nat | i < |subs| && HashQueryMatches(subs[i], h)
  }

  /** The count is the number of positions holding a matching submission. */
  lemma {:induction false} CountMatchingPositions(subs: seq<Record>, h: Value)
    ensures CountMatching(subs, h) == |MatchPositions(subs, h)|
    ensures CountMatching(subs, h) <= |subs|
    decreases |subs|
  {
    if subs != [] {
      var n := |subs| - 1;
      CountMatchingPositions(subs[..n], h);
      MatchPositionsStep(subs, h);
    }
  }

  /** One more submission adds its own position when it matches. */
  lemma MatchPositionsStep(subs: seq<Record>, h: Value)
    requires subs != []
    ensures var n := |subs| - 1;
            && MatchPositions(subs, h) == MatchPositions(subs[..n], h) + (if HashQueryMatches(subs[n], h) then {n} else {})
            && n !in MatchPositions(subs[..n], h)
  {
    var n := |subs| - 1;
    forall i: nat | i < n ensures subs[..n][i] == subs[i] {}
  }

  /** Every defined hash of the list is one of the documents' hashes, and
      there are no more of them than documents. */
  lemma {:induction false} DefinedHashesShape(docs: seq<Record>)
    ensures |DefinedHashes(docs)| <= |docs|
    ensures forall h | h in DefinedHashes(docs) :: h != Undefined && exists d | d in docs :: Get(d, "hash") == h
    ensures forall d | d in docs && Get(d, "hash") != Undefined :: Get(d, "hash") in DefinedHashes(docs)
    decreases |docs|
  {
    if docs != [] {
      var front := docs[..|docs| - 1];
      DefinedHashesShape(front);
      assert docs == front + [docs[|docs| - 1]];
    }
  }

  // ---------------------------------------------------------------- the store

  class AssignmentStore {
    var assignments: seq<Record>
    var submissions: seq<Record>

    constructor (assignments: seq<Record>, submissions: seq<Record>)
      ensures this.assignments == assignments && this.submissions == submissions
    {
      this.assignments := assignments;
      this.submissions := submissions;
    }

    /** `POST /generate` (assignment.routes.ts:10-48). `id` is the id the
        database assigns and `draws` the `Math.random` results. */
    method Generate(body: Record, userId: string, id: string, draws: seq<nat>)
      returns (status: nat, hash: Option<string>)
      requires Utils.ValidDraws(draws, 8)
      modifies this
      ensures !GenerateAccepted(body) ==>
                status == 400 && hash.None? && assignments == old(assignments)
      ensures GenerateAccepted(body) ==>
                && status == 201
                && hash == Some(Utils.HashFromDraws(userId, draws))
                && assignments == old(assignments) + [NewAssignment(body, hash.value, userId, id)]
      ensures submissions == old(submissions)
    {
      if !GenerateAccepted(body) {
        return 400, None;
      }
      var hashed := Utils.RandomHash(8, userId, draws);
      assignments := assignments + [NewAssignment(body, hashed, userId, id)];
      status, hash := 201, Some(hashed);
    }

    /** `DELETE /delete` (assignment.routes.ts:75-108). */
    method Delete(id: Value, userId: string) returns (status: nat)
      modifies this
      ensures !Truthy(id) ==> status == 400 && assignments == old(assignments)
      ensures Truthy(id) && FirstOwnedMatch(old(assignments), id, userId).None? ==>
                status == 404 && assignments == old(assignments)
      ensures Truthy(id) && FirstOwnedMatch(old(assignments), id, userId).Some? ==>
                status == 200 && assignments == DeleteOwned(old(assignments), id, userId)
      ensures submissions == old(submissions)
    {
      if !Truthy(id) {
        return 400;
      }
      var found := FirstOwnedMatch(assignments, id, userId);
      if found.None? {
        return 404;
      }
      assignments := DeleteOwned(assignments, id, userId);
      status := 200;
    }

    /** The count loop of assignment.routes.ts:118-122 and 154-158: one
        count per hash, in the same order. */
    method SubmissionCounts(hashes: seq<Value>) returns (counts: seq<nat>)
      ensures |counts| == |hashes|
      ensures forall i | 0 <= i < |hashes| :: counts[i] == CountMatching(submissions, hashes[i])
    {
      counts := [];
      for i := 0 to |hashes|
        invariant |counts| == i
        invariant forall j | 0 <= j < i :: counts[j] == CountMatching(submissions, hashes[j])
      {
        counts := counts + [CountMatching(submissions, hashes[i])];
      }
    }

    /** `GET /latest/all` (assignment.routes.ts:52-73): 404 when the caller
        has no assignment, otherwise their assignments as
        `filterObjectProperties` shapes them. */
    method LatestAll(userId: string) returns (status: nat, data: seq<Record>)
      ensures OwnedBy(assignments, userId) == [] ==> status == 404 && data == []
      ensures OwnedBy(assignments, userId) != [] ==>
                var owned := OwnedBy(assignments, userId);
                status == 200 && |data| == |owned|
                && forall i | 0 <= i < |owned| :: data[i] == Utils.Project(owned[i], Utils.ListAllowedKeys)
    {
      var owned := OwnedBy(assignments, userId);
      if owned == [] {
        return 404, [];
      }
      data := Utils.FilterObjectProperties(owned);
      status := 200;
    }

    /** `GET /` (assignment.routes.ts:111-141): the caller's assignments and,
        for each defined hash among them, its submission count. The 404
        branch is never taken, since a query result is always an array. */
    method Dashboard(userId: string) returns (status: nat, info: seq<Record>, counts: seq<nat>)
      ensures status == 200 && info == OwnedBy(assignments, userId)
      ensures var hashes := DefinedHashes(info);
              |counts| == |hashes|
              && forall i | 0 <= i < |hashes| :: counts[i] == CountMatching(submissions, hashes[i])
    {
      info := OwnedBy(assignments, userId);
      counts := SubmissionCounts(DefinedHashes(info));
      status := 200;
    }

    /** `GET /latest` (assignment.routes.ts:144-166): 404 when the caller has
        no assignment, otherwise the summaries and the per-hash counts. */
    method Latest(userId: string) returns (status: nat, data: seq<Record>, counts: seq<nat>)
      ensures OwnedBy(assignments, userId) == [] ==> status == 404 && data == [] && counts == []
      ensures OwnedBy(assignments, userId) != [] ==>
                var owned := OwnedBy(assignments, userId);
                var hashes := DefinedHashes(owned);
                && status == 200 && |data| == |owned|
                && (forall i | 0 <= i < |owned| :: data[i] == Utils.Project(owned[i], Utils.SummaryAllowedKeys))
                && |counts| == |hashes|
                && forall i | 0 <= i < |hashes| :: counts[i] == CountMatching(submissions, hashes[i])
    {
      var owned := OwnedBy(assignments, userId);
      if owned == [] {
        return 404, [], [];
      }
      counts := SubmissionCounts(DefinedHashes(owned));
      data := Utils.ThirdFilterObjectProperties(owned);
      status := 200;
    }

    /** `GET /share/:shareId` (assignment.routes.ts:169-190): 404 for an
        unknown hash, otherwise the first assignment with that hash as
        `filterSecondObjectProperties` shapes it. */
    method Share(shareId: string) returns (status: nat, info: Option<Record>)
      ensures (forall j | 0 <= j < |assignments| :: Get(assignments[j], "hash") != Str(shareId)) ==>
                status == 404 && info.None?
      ensures (exists j | 0 <= j < |assignments| :: Get(assignments[j], "hash") == Str(shareId)) ==>
                status == 200 && info.Some?
                && exists j | 0 <= j < |assignments| ::
                     Get(assignments[j], "hash") == Str(shareId) && info.value == Utils.ShareView(assignments[j])
    {
      var i := 0;
      while i < |assignments|
        invariant 0 <= i <= |assignments|
        invariant forall j | 0 <= j < i :: Get(assignments[j], "hash") != Str(shareId)
      {
        if Get(assignments[i], "hash") == Str(shareId) {
          var view := Utils.FilterSecondObjectProperties(assignments[i]);
          return 200, Some(view);
        }
        i := i + 1;
      }
      return 404, None;
    }
  }
}
