/**
 * The expense collection and the two request handlers of backend/server.js:
 * POST /expenses (validate, then insert or answer with the record already
 * stored under that id) and GET /expenses (filter, then sort).
 */
module Store {
  import opened Wrappers
  import opened Calendar
  import opened ExpenseModel
  import opened Validation
  import opened Query
  import opened Sorting

  /**
   * What the database does on a create call besides succeeding: the insert
   * fails with an error other than a duplicate key, or the lookup of the
   * existing record after a duplicate key fails.
   */
  datatype Fault = NoFault | InsertFault | LookupFault

  /** The body of a 201 answer: the new record's fields without `created_at`. */
  datatype Echo = Echo(id: string, amount: int, category: string, description: Option<string>, date: Date)

  function EchoOf(e: Expense): Echo
  {
    Echo(e.id, e.amount, e.category, e.description, e.date)
  }

  /**
   * The answers of POST /expenses: 201 with the new record, 200 with the
   * record already stored under the id, 400 with the reason, or 500.
   */
  datatype Response =
    | Created(body: Echo)
    | Existing(record: Expense)
    | BadRequest(reason: Rejection)
    | ServerError

  function StatusCode(r: Response): int
  {
    match r
    case Created(_) => 201
    case Existing(_) => 200
    case BadRequest(_) => 400
    case ServerError => 500
  }

  /** The record `Expense.create` builds from an accepted request at time `now`. */
  function Stored(v: Checked, now: int): Expense
  {
    NewExpense(v.id, v.amount, v.category, v.description, v.day, now)
  }

  datatype Step = Step(records: map<string, Expense>, response: Response)

  /**
   * One POST /expenses on the collection `records`: the validation chain,
   * then the insert; a duplicate id answers with the stored record.
   * Stored records never change, and the store invariant is kept.
   */
  function CreateStep(records: map<string, Expense>, p: Payload, now: int, fault: Fault): (s: Step)
    ensures records.Keys <= s.records.Keys
    ensures forall k :: k in records ==> s.records[k] == records[k]
    ensures s.records != records <==> s.response.Created?
    ensures StoreInvariant(records) ==> StoreInvariant(s.records)
  {
    match Validate(p)
    case Failure(reason) => Step(records, BadRequest(reason))
    case Success(v) =>
      if fault == InsertFault then Step(records, ServerError)
      else if v.id in records then
        if fault == LookupFault then Step(records, ServerError)
        else Step(records, Existing(records[v.id]))
      else
        var e := Stored(v, now);
        Step(records[v.id := e], Created(EchoOf(e)))
  }

  /** A rejected request answers 400 with its reason and never reaches the store. */
  lemma RejectionLeavesStoreUnchanged(records: map<string, Expense>, p: Payload, now: int, fault: Fault)
    requires Validate(p).Failure?
    ensures CreateStep(records, p, now, fault) == Step(records, BadRequest(Validate(p).error))
  {
  }

  /**
   * A request with a fresh id adds exactly one record, under that id, with
   * the request's fields and `created_at` set to the insertion time; the
   * answer is 201 echoing those fields.
   */
  lemma FreshIdAddsOneRecord(records: map<string, Expense>, p: Payload, now: int, fault: Fault)
    requires Validate(p).Success? && Validate(p).value.id !in records
    requires fault != InsertFault
    ensures var s := CreateStep(records, p, now, fault);
      var id := p.id.value;
      && s.records.Keys == records.Keys + {id}
      && |s.records| == |records| + 1
      && s.records[id].amount == p.amount.n
      && s.records[id].category == p.category.value
      && s.records[id].description == p.description
      && s.records[id].date == DayOf(p.date.value)
      && s.records[id].createdAt == now
      && StatusCode(s.response) == 201
      && s.response.body == EchoOf(s.records[id])
  {
  }

  /**
   * A request whose id is already stored changes nothing and answers 200
   * with the stored record, not with the new payload; a failing lookup
   * answers 500.
   */
  lemma DuplicateIdAnswersStored(records: map<string, Expense>, p: Payload, now: int, fault: Fault)
    requires Validate(p).Success? && Validate(p).value.id in records
    ensures var s := CreateStep(records, p, now, fault);
      && s.records == records
      && (fault == NoFault ==> s.response == Existing(records[p.id.value]))
      && (fault != NoFault ==> s.response == ServerError)
  {
  }

  /** An insert error other than a duplicate key answers 500 and stores nothing. */
  lemma InsertFaultAnswers500(records: map<string, Expense>, p: Payload, now: int)
    requires Validate(p).Success?
    ensures CreateStep(records, p, now, InsertFault) == Step(records, ServerError)
  {
  }

  /** A create call as the client issues it, with the time and the database's behaviour. */
  datatype Request = Request(payload: Payload, now: int, fault: Fault)

  datatype Trace = Trace(records: map<string, Expense>, responses: seq<Response>)

  /** A sequence of create calls applied in order, with the answers they get. */
  function Run(records: map<string, Expense>, reqs: seq<Request>): (t: Trace)
    ensures |t.responses| == |reqs|
  {
    if reqs == [] then Trace(records, [])
    else
      var before := Run(records, reqs[..|reqs| - 1]);
      var r := reqs[|reqs| - 1];
      var s := CreateStep(before.records, r.payload, r.now, r.fault);
      Trace(s.records, before.responses + [s.response])
  }

  /** Once stored, a record stays in the store unchanged through any later create calls. */
  lemma {:induction false} RunKeepsStored(records: map<string, Expense>, reqs: seq<Request>, id: string)
    requires id in records
    ensures id in Run(records, reqs).records && Run(records, reqs).records[id] == records[id]
  {
    if reqs != [] {
      RunKeepsStored(records, reqs[..|reqs| - 1], id);
    }
  }

  /** Any sequence of create calls keeps the store invariant, unique ids included. */
  lemma {:induction false} RunPreservesInvariant(records: map<string, Expense>, reqs: seq<Request>)
    requires StoreInvariant(records)
    ensures StoreInvariant(Run(records, reqs).records)
  {
    if reqs != [] {
      RunPreservesInvariant(records, reqs[..|reqs| - 1]);
    }
  }

  /**
   * First write wins: every later accepted request for a stored id that
   * meets no fault is answered with the record as first written.
   */
  lemma {:induction false} LaterDuplicatesAnswerFirstWrite(records: map<string, Expense>, reqs: seq<Request>, i: int)
    requires 0 <= i < |reqs|
    requires Validate(reqs[i].payload).Success?
    requires Validate(reqs[i].payload).value.id in records
    requires reqs[i].fault == NoFault
    ensures Run(records, reqs).responses[i] == Existing(records[reqs[i].payload.id.value])
  {
    var n := |reqs| - 1;
    var id := reqs[i].payload.id.value;
    if i == n {
      RunKeepsStored(records, reqs[..n], id);
    } else {
      assert reqs[..n][i] == reqs[i];
      LaterDuplicatesAnswerFirstWrite(records, reqs[..n], i);
    }
  }

  /** Running `a` and then `b` is running `a + b`. */
  lemma {:induction false} RunSplit(records: map<string, Expense>, a: seq<Request>, b: seq<Request>)
    ensures var first := Run(records, a);
      var second := Run(first.records, b);
      Run(records, a + b) == Trace(second.records, first.responses + second.responses)
  {
    if b == [] {
      assert a + b == a;
    } else {
      var init := b[..|b| - 1];
      assert (a + b)[..|a + b| - 1] == a + init;
      assert (a + b)[|a + b| - 1] == b[|b| - 1];
      RunSplit(records, a, init);
    }
  }

  /** The last call of a run that answered 201 left the record it echoed in the store. */
  lemma {:induction false} LastCreatedIsStored(records: map<string, Expense>, reqs: seq<Request>)
    requires reqs != [] && Run(records, reqs).responses[|reqs| - 1].Created?
    ensures var t := Run(records, reqs);
      var body := t.responses[|reqs| - 1].body;
      body.id in t.records && EchoOf(t.records[body.id]) == body
  {
  }

  /**
   * First write wins within a run: once call `k` has created a record, a
   * later accepted call `i` for the same id that meets no fault is answered
   * 200 with that record, carrying the fields the 201 of call `k` echoed.
   */
  lemma CreatedThenPostedAgain(records: map<string, Expense>, reqs: seq<Request>, k: int, i: int)
    requires 0 <= k < i < |reqs|
    requires Run(records, reqs).responses[k].Created?
    requires Validate(reqs[i].payload).Success?
    requires Validate(reqs[i].payload).value.id == Run(records, reqs).responses[k].body.id
    requires reqs[i].fault == NoFault
    ensures Run(records, reqs).responses[i].Existing?
    ensures EchoOf(Run(records, reqs).responses[i].record) == Run(records, reqs).responses[k].body
  {
    var a, b := reqs[..k + 1], reqs[k + 1..];
    assert reqs == a + b;
    RunSplit(records, a, b);
    LastCreatedIsStored(records, a);
    assert b[i - k - 1] == reqs[i];
    LaterDuplicatesAnswerFirstWrite(Run(records, a).records, b, i - k - 1);
  }

  /**
   * A request posted twice in a row (a retried request): the store gains
   * exactly one record, the first call answers 201 and the second 200, both
   * with the same record fields.
   */
  lemma RetriedCreateStoresOnce(records: map<string, Expense>, p: Payload, t1: int, t2: int)
    requires Validate(p).Success? && Validate(p).value.id !in records
    ensures var first := CreateStep(records, p, t1, NoFault);
      var second := CreateStep(first.records, p, t2, NoFault);
      && second.records == first.records
      && second.records.Keys == records.Keys + {p.id.value}
      && first.response.Created? && second.response.Existing?
      && first.response.body == EchoOf(second.response.record)
  {
  }

  /** The matching records of `ids`, in the order of `ids`. */
  function Select(q: ListQuery, records: map<string, Expense>, ids: seq<string>): (s: seq<Expense>)
    requires forall i :: 0 <= i < |ids| ==> ids[i] in records
    ensures |s| <= |ids|
  {
    if ids == [] then []
    else
      var e := records[ids[|ids| - 1]];
      Select(q, records, ids[..|ids| - 1]) + (if Matches(q, e) then [e] else [])
  }

  /** `Select` keeps exactly the matching records stored under the given ids. */
  lemma {:induction false} SelectMembers(q: ListQuery, records: map<string, Expense>, ids: seq<string>, e: Expense)
    requires KeyedById(records)
    requires forall i :: 0 <= i < |ids| ==> ids[i] in records
    ensures e in Select(q, records, ids) <==>
              e.id in ids && e.id in records && records[e.id] == e && Matches(q, e)
  {
    if ids != [] {
      var init := ids[..|ids| - 1];
      SelectMembers(q, records, init, e);
      assert ids == init + [ids[|ids| - 1]];
    }
  }

  /** Over distinct ids, `Select` lists each record at most once. */
  lemma {:induction false} SelectDistinct(q: ListQuery, records: map<string, Expense>, ids: seq<string>)
    requires KeyedById(records)
    requires forall i :: 0 <= i < |ids| ==> ids[i] in records
    requires forall i, j :: 0 <= i < j < |ids| ==> ids[i] != ids[j]
    ensures DistinctIds(Select(q, records, ids))
  {
    if ids != [] {
      var init := ids[..|ids| - 1];
      SelectDistinct(q, records, init);
      var last := ids[|ids| - 1];
      forall e | e in Select(q, records, init) ensures e.id != last {
        SelectMembers(q, records, init, e);
      }
    }
  }

  predicate DistinctIds(s: seq<Expense>)
  {
    forall i, j :: 0 <= i < j < |s| ==> s[i].id != s[j].id
  }

  /** A sequence with distinct ids holds each record at most once. */
  lemma {:induction false} DistinctIdsOnce(s: seq<Expense>, e: Expense)
    requires DistinctIds(s)
    ensures multiset(s)[e] <= 1
  {
    if s != [] {
      var init := s[..|s| - 1];
      DistinctIdsOnce(init, e);
      assert s == init + [s[|s| - 1]];
      if s[|s| - 1] == e {
        assert e !in init;
      }
    }
  }

  /** A permutation of a sequence with distinct ids has distinct ids. */
  lemma PermutationKeepsDistinct(s: seq<Expense>, t: seq<Expense>)
    requires DistinctIds(s) && multiset(s) == multiset(t)
    ensures DistinctIds(t)
  {
    forall i, j | 0 <= i < j < |t| ensures t[i].id != t[j].id {
      if t[i] == t[j] {
        assert t == t[..i] + [t[i]] + t[i + 1..j] + [t[j]] + t[j + 1..];
        assert multiset(t)[t[i]] >= 2;
        DistinctIdsOnce(s, t[i]);
      } else {
        assert t[i] in multiset(s) && t[j] in multiset(s);
        var a :| 0 <= a < |s| && s[a] == t[i];
        var b :| 0 <= b < |s| && s[b] == t[j];
      }
    }
  }

  /**
   * A permutation of the matching records of every stored id, each id
   * listed once, holds exactly the stored records that match, each once.
   */
  lemma ListedExactly(q: ListQuery, records: map<string, Expense>, ids: seq<string>, out: seq<Expense>)
    requires KeyedById(records)
    requires forall i, j :: 0 <= i < j < |ids| ==> ids[i] != ids[j]
    requires forall k :: k in records <==> k in ids
    requires multiset(out) == multiset(Select(q, records, ids))
    ensures forall e :: e in out <==> e in records.Values && Matches(q, e)
    ensures DistinctIds(out)
  {
    SelectDistinct(q, records, ids);
    PermutationKeepsDistinct(Select(q, records, ids), out);
    forall e ensures e in out <==> e in records.Values && Matches(q, e) {
      assert e in out <==> e in multiset(Select(q, records, ids));
      SelectMembers(q, records, ids, e);
    }
  }

  /** The collection: records keyed by id, and the ids in insertion (natural) order. */
  class ExpenseStore {
    var records: map<string, Expense>
    var order: seq<string>

    ghost predicate Valid()
      reads this
    {
      && StoreInvariant(records)
      && (forall i, j :: 0 <= i < j < |order| ==> order[i] != order[j])
      && (forall k :: k in records <==> k in order)
    }

    constructor ()
      ensures Valid() && records == map[] && order == []
    {
      records := map[];
      order := [];
    }

    /** POST /expenses. */
    method Create(p: Payload, now: int, fault: Fault) returns (resp: Response)
      requires Valid()
      modifies this
      ensures Valid()
      ensures records == CreateStep(old(records), p, now, fault).records
      ensures resp == CreateStep(old(records), p, now, fault).response
      ensures order == if resp.Created? then old(order) + [resp.body.id] else old(order)
    {
      var checked := Validate(p);
      if checked.Failure? {
        return BadRequest(checked.error);
      }
      var v := checked.value;
      if fault == InsertFault {
        return ServerError;
      }
      if v.id in records {
        // duplicate key: fetch the stored record
        if fault == LookupFault {
          return ServerError;
        }
        return Existing(records[v.id]);
      }
      var e := Stored(v, now);
      records := records[v.id := e];
      order := order + [v.id];
      resp := Created(EchoOf(e));
    }

    /**
     * GET /expenses: exactly the stored records that match the query, each
     * once, ordered by the sort the query selects.
     */
    method List(q: ListQuery) returns (out: seq<Expense>)
      requires Valid()
      ensures SortedBy(ResolveSort(q.sort), out)
      ensures multiset(out) == multiset(Select(q, records, order))
      ensures forall e :: e in out <==> e in records.Values && Matches(q, e)
      ensures DistinctIds(out)
    {
      var acc := Find(q);
      var a := new Expense[|acc|](j requires 0 <= j < |acc| => acc[j]);
      assert a[..] == acc;
      SortInPlace(a, ResolveSort(q.sort));
      out := a[..];
      ListedExactly(q, records, order, out);
    }

    /** `Expense.find(query)`: the matching records, in insertion order. */
    method Find(q: ListQuery) returns (acc: seq<Expense>)
      requires forall i :: 0 <= i < |order| ==> order[i] in records
      ensures acc == Select(q, records, order)
    {
      acc := [];
      var i := 0;
      while i < |order|
        invariant 0 <= i <= |order|
        invariant acc == Select(q, records, order[..i])
      {
        var e := records[order[i]];
        if Matches(q, e) {
          acc := acc + [e];
        }
        assert order[..i + 1][..i] == order[..i];
        i := i + 1;
      }
      assert order[..|order|] == order;
    }
  }
}
