/**
 * The two handlers of app/api/evaluate/route.js.
 *
 * POST scores one role-play transcript: it checks the request, truncates
 * the transcript, builds the prompt, asks the language model, parses and
 * validates its answer, stores one record and replies. Every call that
 * leaves the process (reading the request body, connecting to the store,
 * the model, `JSON.parse`, the store write, the clock) is a parameter: an
 * `Env` says what each of them gives back.
 *
 * GET lists a page of stored records with the same averages as the
 * analytics route.
 */
module Evaluate {
  import opened Wrappers
  import opened JsonData
  import opened Records
  import opened Averages
  import Validator
  import ScoringPrompt

  const MaxRoleplayChars: nat := 8000
  const ModelName: string := "groq:llama-3.1-8b-instant"
  const KeyRoleplayText: string := "roleplayText"
  const KeyUserId: string := "userId"

  const MsgBadInput: string := "roleplayText is required and must be a string."
  const MsgNotJson: string := "Model did not return valid JSON."
  const MsgBadSchema: string := "Model output failed schema validation."
  const MsgFailed: string := "Failed to analyze roleplay. Please try again."

  // ---------------------------------------------------------------------------
  // Reading the request

  /** The transcript, when `roleplayText` is a truthy string; `body || {}`
      and property access make every other body fail the check. */
  function RoleplayTextOf(body: Json): (t: Option<string>)
    ensures t.Some? <==>
      (Get(body, KeyRoleplayText).Some? && Get(body, KeyRoleplayText).value.JStr?
       && Truthy(Get(body, KeyRoleplayText).value))
    ensures t.Some? ==> Get(body, KeyRoleplayText) == Some(JStr(t.value)) && t.value != ""
  {
    match Get(body, KeyRoleplayText)
    case Some(JStr(s)) => if s != "" then Some(s) else None
    case _ => None
  }

  /** `userId || null`. */
  function UserIdOf(body: Json): (u: Json)
    ensures u != JNull <==> Get(body, KeyUserId).Some? && Truthy(Get(body, KeyUserId).value)
    ensures u != JNull ==> Get(body, KeyUserId) == Some(u)
  {
    TruthyOrNull(Get(body, KeyUserId))
  }

  /** At most the first 8000 characters of the transcript. */
  function Truncate(text: string): (t: string)
    ensures |t| == if |text| > MaxRoleplayChars then MaxRoleplayChars else |text|
    ensures t == text[..|t|]
  {
    if |text| > MaxRoleplayChars then text[..MaxRoleplayChars] else text
  }

  // ---------------------------------------------------------------------------
  // POST: the specification

  /** What the world outside the handler does on this request. */
  datatype Env = Env(
    connectOk: bool,                  // `connectDB()` resolves
    complete: string -> Option<string>, // `generateText`: the model's text, or a thrown error
    parse: string -> Option<Json>,    // `JSON.parse`: the value, or a syntax error
    writeOk: bool,                    // `Evaluation.create` resolves
    now: int)                         // the store's `createdAt`

  /** The JSON reply and its HTTP status. */
  datatype Reply = Reply(
    status: int,
    success: bool,
    message: Option<string>,
    data: Option<Validator.ScoreResult>,
    id: Option<nat>)

  function Fail(status: int, message: string): Reply {
    Reply(status, false, Some(message), None, None)
  }

  /** One request's effect: the reply, the record written (if any), and the
      prompt sent to the model (if the handler got that far). */
  datatype Outcome = Outcome(reply: Reply, stored: Option<Evaluation>, prompt: Option<string>)

  /** POST /api/evaluate. `body` is `None` when the request body is not
      JSON (`req.json()` throws); `id` is the identifier the store assigns. */
  function Respond(body: Option<Json>, env: Env, id: nat): (o: Outcome)
    ensures o.stored.Some? <==> o.reply.status == 200
    ensures o.stored.Some? ==> o.stored.value.id == id && o.reply.id == Some(id)
    ensures o.prompt.Some? ==> body.Some? && RoleplayTextOf(body.value).Some?
  {
    if body.None? then Outcome(Fail(500, MsgFailed), None, None)
    else match RoleplayTextOf(body.value)
      case None => Outcome(Fail(400, MsgBadInput), None, None)
      case Some(text) =>
        var t := Truncate(text);
        if !env.connectOk then Outcome(Fail(500, MsgFailed), None, None)
        else
          var prompt := ScoringPrompt.BuildScoringPrompt(t);
          match env.complete(prompt)
          case None => Outcome(Fail(500, MsgFailed), None, Some(prompt))
          case Some(output) =>
            match env.parse(output)
            case None => Outcome(Fail(500, MsgNotJson), None, Some(prompt))
            case Some(raw) =>
              match Validator.Validate(raw)
              case Failure(_) => Outcome(Fail(500, MsgBadSchema), None, Some(prompt))
              case Success(result) =>
                if !env.writeOk then Outcome(Fail(500, MsgFailed), None, Some(prompt))
                else
                  var record := Evaluation(id, UserIdOf(body.value), t, Validator.ToJson(result),
                                           Some(ModelName), env.now);
                  Outcome(Reply(200, true, None, Some(result), Some(id)), Some(record), Some(prompt))
  }

  // ---------------------------------------------------------------------------
  // POST: the store and the handler

  /** The evaluations collection: the records in insertion order and the
      next identifier it will hand out. */
  class Store {
    var records: seq<Evaluation>
    var nextId: nat

    /** Identifiers are unique and below `nextId`, and every stored result
        passed the schema. */
    ghost predicate Valid()
      reads this
    {
      && (forall i :: 0 <= i < |records| ==> records[i].id < nextId)
      && (forall i, j :: 0 <= i < j < |records| ==> records[i].id != records[j].id)
      && AllConform(records)
    }

    constructor ()
      ensures Valid()
      ensures records == [] && nextId == 0
    {
      records := [];
      nextId := 0;
    }

    /** `Evaluation.create`: appends one record under a fresh identifier. */
    method Create(record: Evaluation) returns (id: nat)
      requires Valid()
      requires Validator.Conforms(record.result)
      modifies this
      ensures Valid()
      ensures id == old(nextId)
      ensures records == old(records) + [record.(id := id)]
      ensures nextId == old(nextId) + 1
    {
      id := nextId;
      records := records + [record.(id := id)];
      nextId := nextId + 1;
    }
  }

  /** The POST handler, step by step: at most one record is written, and
      only when the reply is a success. */
  method Post(store: Store, body: Option<Json>, env: Env) returns (reply: Reply, prompt: Option<string>)
    requires store.Valid()
    modifies store
    ensures store.Valid()
    ensures var out := Respond(body, env, old(store.nextId));
            && reply == out.reply
            && prompt == out.prompt
            && store.records == old(store.records) + (if out.stored.Some? then [out.stored.value] else [])
            && store.nextId == old(store.nextId) + (if out.stored.Some? then 1 else 0)
  {
    prompt := None;
    if body.None? {
      return Fail(500, MsgFailed), prompt;
    }
    var text := RoleplayTextOf(body.value);
    if text.None? {
      return Fail(400, MsgBadInput), prompt;
    }
    var trimmed := Truncate(text.value);
    if !env.connectOk {
      return Fail(500, MsgFailed), prompt;
    }
    var p := ScoringPrompt.BuildScoringPrompt(trimmed);
    prompt := Some(p);
    var output := env.complete(p);
    if output.None? {
      return Fail(500, MsgFailed), prompt;
    }
    var raw := env.parse(output.value);
    if raw.None? {
      return Fail(500, MsgNotJson), prompt;
    }
    var evaluation := Validator.Validate(raw.value);
    if evaluation.Failure? {
      return Fail(500, MsgBadSchema), prompt;
    }
    if !env.writeOk {
      return Fail(500, MsgFailed), prompt;
    }
    var result := evaluation.value;
    var record := Evaluation(0, UserIdOf(body.value), trimmed, Validator.ToJson(result),
                             Some(ModelName), env.now);
    Validator.ValidateToJson(result);
    var id := store.Create(record);
    reply := Reply(200, true, None, Some(result), Some(id));
  }

  // ---------------------------------------------------------------------------
  // POST: properties

  /** The reply is 200 with data and an id exactly when a record is written;
      otherwise it is an error with a message and nothing is written. */
  lemma WritesExactlyOnSuccess(body: Option<Json>, env: Env, id: nat)
    ensures var out := Respond(body, env, id);
            && (out.stored.Some? <==> out.reply.success)
            && (out.reply.success <==> out.reply.status == 200)
            && (out.reply.success ==> out.reply.data.Some? && out.reply.id == Some(id))
            && (!out.reply.success ==> out.reply.message.Some? && out.reply.data.None?)
            && out.reply.status in {200, 400, 500}
  {
  }

  /** 400 exactly for a JSON body whose `roleplayText` is missing, empty or
      not a string; then neither the store nor the model is reached. */
  lemma BadInputIs400(body: Option<Json>, env: Env, id: nat)
    ensures var out := Respond(body, env, id);
            && (out.reply.status == 400 <==> body.Some? && RoleplayTextOf(body.value).None?)
            && (out.reply.status == 400 ==> out.reply.message == Some(MsgBadInput) && out.prompt.None?)
  {
  }

  /** An answer that is not JSON gives its own 500 message; one that parses
      but fails the schema gives another; neither writes. */
  lemma ModelFailuresAre500(body: Json, env: Env, id: nat)
    requires RoleplayTextOf(body).Some? && env.connectOk
    ensures var prompt := ScoringPrompt.BuildScoringPrompt(Truncate(RoleplayTextOf(body).value));
            var out := Respond(Some(body), env, id);
            && (env.complete(prompt).Some? && env.parse(env.complete(prompt).value).None?
                ==> out.reply == Fail(500, MsgNotJson) && out.stored.None?)
            && (env.complete(prompt).Some? && env.parse(env.complete(prompt).value).Some?
                && !Validator.Conforms(env.parse(env.complete(prompt).value).value)
                ==> out.reply == Fail(500, MsgBadSchema) && out.stored.None?)
  {
  }

  /** What a successful request stores: the truncated transcript (the same
      text the prompt carries), the validated result, the model's name, and
      the caller's truthy `userId` or null. */
  lemma StoredRecordOnSuccess(body: Json, env: Env, id: nat)
    requires Respond(Some(body), env, id).reply.success
    ensures var out := Respond(Some(body), env, id);
            var text := RoleplayTextOf(body).value;
            var rec := out.stored.value;
            && rec.id == id
            && rec.roleplayText == Truncate(text)
            && |rec.roleplayText| <= MaxRoleplayChars
            && rec.roleplayText == text[..|rec.roleplayText|]
            && rec.result == Validator.ToJson(out.reply.data.value)
            && Validator.Conforms(rec.result)
            && rec.modelName == Some(ModelName)
            && rec.userId == UserIdOf(body)
            && rec.createdAt == env.now
            && out.prompt == Some(ScoringPrompt.BuildScoringPrompt(rec.roleplayText))
            && ScoringPrompt.ExtractTranscript(out.prompt.value) == Some(rec.roleplayText)
  {
    var out := Respond(Some(body), env, id);
    Validator.ValidateToJson(out.reply.data.value);
    ScoringPrompt.ExtractBuild(out.stored.value.roleplayText);
  }

  /** A transcript within the limit reaches the model and the store whole. */
  lemma ShortTranscriptKept(text: string)
    requires |text| <= MaxRoleplayChars
    ensures Truncate(text) == text
  {
  }

  // ---------------------------------------------------------------------------
  // GET

  const DefaultListLimit: int := 20

  /** `parseInt(limit || '20')`: unlike the analytics route, no cap. */
  function ListLimit(requested: Option<int>): (limit: int)
    ensures requested.None? ==> limit == DefaultListLimit
    ensures requested.Some? ==> limit == requested.value
  {
    requested.GetOr(DefaultListLimit)
  }

  /** One row of `data`. The stored records have no `scenarioType`, so that
      column is always null. */
  datatype ListItem = ListItem(
    id: nat,
    userId: Json,
    scenarioType: Json,
    createdAt: int,
    overallScore: Json,
    scores: Json)

  /** One listed record: its score fields as stored, or null. */
  function ItemOf(d: Evaluation): (it: ListItem)
    ensures it.id == d.id && it.createdAt == d.createdAt && it.scenarioType == JNull
    ensures ScoreOf(d.result, Overall).Some? ==> it.overallScore == JNum(ScoreOf(d.result, Overall).value)
  {
    ListItem(d.id, TruthyOrNull(Some(d.userId)), JNull, d.createdAt,
             OverallOrNull(d.result), ScoresOrNull(d.result))
  }

  /** `docs.map(...)`: one row per record, in the store's order. */
  function ListItems(docs: seq<Evaluation>): (items: seq<ListItem>)
    ensures |items| == |docs|
    ensures forall i :: 0 <= i < |docs| ==> items[i] == ItemOf(docs[i])
  {
    if docs == [] then [] else [ItemOf(docs[0])] + ListItems(docs[1..])
  }

  /** The GET handler once the store has returned the page `docs`. */
  method ListEvaluations(docs: seq<Evaluation>) returns (meta: Summary, data: seq<ListItem>)
    ensures meta == Summarize(docs)
    ensures data == ListItems(docs)
  {
    meta := Aggregate(docs);
    data := ListItems(docs);
  }

  /** A record written by POST is listed by GET with the scores it was
      stored with. */
  lemma ListedAfterPost(body: Json, env: Env, id: nat)
    requires Respond(Some(body), env, id).reply.success
    ensures var out := Respond(Some(body), env, id);
            var r := out.reply.data.value;
            var item := ItemOf(out.stored.value);
            && item.id == id
            && item.overallScore == JNum(r.overallScore)
            && item.scores == Validator.ToJson(r).fields[Validator.KeyScores]
            && item.scenarioType == JNull
  {
  }

  /** Every page a valid store hands to GET reports averages in [0, 10]:
      the schema check POST runs before each write keeps them in range. */
  lemma StoredAveragesInRange(store: Store, page: seq<Evaluation>)
    requires store.Valid()
    requires |page| > 0
    requires forall d :: d in page ==> d in store.records
    ensures var s := Summarize(page);
      && Validator.InRange(s.avgOverall.value)
      && Validator.InRange(s.avgEmpathy.value)
      && Validator.InRange(s.avgClarity.value)
      && Validator.InRange(s.avgProductKnowledge.value)
  {
    forall i | 0 <= i < |page| ensures Validator.Conforms(page[i].result) {
      assert page[i] in store.records;
      var j :| 0 <= j < |store.records| && store.records[j] == page[i];
    }
    AveragesInRange(page);
  }
}
