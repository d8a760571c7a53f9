/** The rows that register the webhooks of workflows, keyed by HTTP method and path.
    Storing a row replaces whatever row has its key. */
module Webhooks {
  import opened Options

  type WorkflowId = string
  type Key = (string, string)

  /** A webhook a workflow defines; `webhookId` is that of its node. */
  datatype Webhook = Webhook(node: string, verb: string, path: string, webhookId: Option<string>)

  datatype Row = Row(workflowId: WorkflowId, node: string, webhookId: Option<string>, pathLength: Option<nat>)

  type Rows = map<Key, Row>

  /** What went wrong: the database refused, or something else was thrown. */
  datatype Failure = QueryFailed | Thrown(message: string, detail: string)

  datatype Error = PathTaken(node: string) | Other(message: string)

  /** How storing one webhook went: the row is stored and the webhook set up, or the row
      is not stored, or it is stored and the setup fails. */
  datatype Attempt = Works | StoreFails(failure: Failure) | SetupFails(failure: Failure)

  // ---------- paths ----------

  /** At most one leading slash is removed, then at most one trailing one. */
  function NormalPath(path: string): string {
    var trimmed := if path != "" && path[0] == '/' then path[1..] else path;
    if trimmed != "" && trimmed[|trimmed| - 1] == '/' then trimmed[..|trimmed| - 1] else trimmed
  }

  /** The path is the normal one between at most one slash on each side, and a slash that
      is still there at an end was the second one. */
  lemma NormalPathInContext(path: string)
    ensures exists before, after :: before in {"", "/"} && after in {"", "/"}
              && path == before + NormalPath(path) + after
              && (before == "" ==> !(path != "" && path[0] == '/'))
              && (after == "" ==> !(path[|before|..] != "" && path[|path| - 1] == '/'))
  {
    var before := if path != "" && path[0] == '/' then "/" else "";
    var trimmed := path[|before|..];
    var after := if trimmed != "" && trimmed[|trimmed| - 1] == '/' then "/" else "";
    assert path == before + NormalPath(path) + after;
  }

  predicate HasSegmentParameter(path: string) {
    (path != "" && path[0] == ':') || exists i :: 0 <= i < |path| - 1 && path[i] == '/' && path[i + 1] == ':'
  }

  function Segments(path: string): nat {
    if path == "" then 1 else Segments(path[1..]) + if path[0] == '/' then 1 else 0
  }

  /** The segments of a path are those before and after any of its slashes. */
  lemma {:induction false} SegmentsOfJoin(a: string, b: string)
    ensures Segments(a + "/" + b) == Segments(a) + Segments(b)
  {
    if a == "" {
      assert a + "/" + b == "/" + b && ("/" + b)[1..] == b;
    } else {
      assert (a + "/" + b)[1..] == a[1..] + "/" + b;
      SegmentsOfJoin(a[1..], b);
    }
  }

  /** A request under the id of a webhook with parameters has, behind the id, the number of segments
      recorded in the row exactly if the webhook's path has that number of segments. */
  lemma RequestSegments(w: WorkflowId, h: Webhook, request: string)
    requires RowOf(w, h).pathLength.Some?
    requires '/' !in h.webhookId.value
    ensures Segments(h.webhookId.value + "/" + request) - 1 == RowOf(w, h).pathLength.value
       <==> Segments(request) == Segments(NormalPath(h.path))
  {
    SegmentsOfJoin(h.webhookId.value, request);
    OneSegment(h.webhookId.value);
  }

  lemma {:induction false} OneSegment(a: string)
    requires '/' !in a
    ensures Segments(a) == 1
  {
    if a != "" {
      OneSegment(a[1..]);
    }
  }

  function KeyOf(h: Webhook): Key {
    (h.verb, NormalPath(h.path))
  }

  function RowOf(w: WorkflowId, h: Webhook): Row {
    if HasSegmentParameter(h.path) && h.webhookId.Some? && h.webhookId.value != ""
    then Row(w, h.node, h.webhookId, Some(Segments(NormalPath(h.path))))
    else Row(w, h.node, None, None)
  }

  /** The path begins with a parameter or has one behind a slash. */
  ghost predicate HasParameter(path: string) {
    (exists rest :: path == ":" + rest) || exists before, rest :: path == before + ("/:" + rest)
  }

  /** A webhook stands under its method and its trimmed path, in a row of its workflow and node; the row has the
      id of the node and the number of segments exactly for a path with parameters of a node with an id. */
  lemma RowHolds(w: WorkflowId, h: Webhook)
    ensures KeyOf(h) == (h.verb, NormalPath(h.path))
    ensures var row := RowOf(w, h);
            && row.workflowId == w && row.node == h.node
            && if HasParameter(h.path) && h.webhookId.Some? && h.webhookId != Some("")
               then row.webhookId == h.webhookId && row.pathLength == Some(Segments(NormalPath(h.path)))
               else row.webhookId == None && row.pathLength == None
  {
    var path := h.path;
    if path != "" && path[0] == ':' {
      assert path == ":" + path[1..];
    }
    if i :| 0 <= i < |path| - 1 && path[i] == '/' && path[i + 1] == ':' {
      assert path == path[..i] + ("/:" + path[i + 2..]);
    }
    if before, rest :| path == before + ("/:" + rest) {
      assert path[|before|] == '/' && path[|before| + 1] == ':';
    }
  }

  // ---------- storing and clearing ----------

  function Stored(rows: Rows, w: WorkflowId, h: Webhook): Rows {
    rows[KeyOf(h) := RowOf(w, h)]
  }

  function AllStored(rows: Rows, w: WorkflowId, hooks: seq<Webhook>): Rows {
    if hooks == [] then rows else Stored(AllStored(rows, w, hooks[..|hooks| - 1]), w, hooks[|hooks| - 1])
  }

  function Without(rows: Rows, w: WorkflowId): Rows {
    map k | k in rows && rows[k].workflowId != w :: rows[k]
  }

  /** The rows once those of the workflow are cleared, if that succeeds. */
  function Cleared(rows: Rows, w: WorkflowId, clears: bool): Rows {
    if clears then Without(rows, w) else rows
  }

  predicate LastWithKey(hooks: seq<Webhook>, i: nat) {
    i < |hooks| && forall j :: i < j < |hooks| ==> KeyOf(hooks[j]) != KeyOf(hooks[i])
  }

  /** Each stored webhook has a row of its workflow; the last webhook with a key sets the row. */
  lemma {:induction false} StoredHasItsRow(rows: Rows, w: WorkflowId, hooks: seq<Webhook>, i: nat)
    requires i < |hooks|
    ensures KeyOf(hooks[i]) in AllStored(rows, w, hooks)
    ensures AllStored(rows, w, hooks)[KeyOf(hooks[i])].workflowId == w
    ensures LastWithKey(hooks, i) ==> AllStored(rows, w, hooks)[KeyOf(hooks[i])] == RowOf(w, hooks[i])
    decreases |hooks|
  {
    var n := |hooks| - 1;
    if i < n {
      var front := hooks[..n];
      StoredHasItsRow(rows, w, front, i);
      if LastWithKey(hooks, i) {
        assert forall j :: i < j < n ==> front[j] == hooks[j];
        assert LastWithKey(front, i) && KeyOf(hooks[n]) != KeyOf(hooks[i]);
      }
    }
  }

  /** A key that no webhook has keeps its row, or stays free. */
  lemma {:induction false} OtherKeysStay(rows: Rows, w: WorkflowId, hooks: seq<Webhook>, k: Key)
    requires forall h :: h in hooks ==> KeyOf(h) != k
    ensures k in AllStored(rows, w, hooks) <==> k in rows
    ensures k in rows ==> AllStored(rows, w, hooks)[k] == rows[k]
    decreases |hooks|
  {
    if hooks == [] {
    } else {
      var n := |hooks| - 1;
      assert forall h :: h in hooks[..n] ==> h in hooks;
      OtherKeysStay(rows, w, hooks[..n], k);
      assert hooks[n] in hooks;
    }
  }

  /** No row of another workflow appears, changes or goes. */
  ghost predicate OthersKept(rows: Rows, rows': Rows, w: WorkflowId) {
    Without(rows', w) == Without(rows, w)
  }

  /** A webhook of `w` whose key is held by another workflow. */
  predicate Takes(rows: Rows, w: WorkflowId, h: Webhook) {
    KeyOf(h) in rows && rows[KeyOf(h)].workflowId != w
  }

  /** Storing, and clearing afterwards, keeps the rows of other workflows if and only if
      none of the stored webhooks has a key that another workflow holds. */
  lemma OthersKeptExactlyWhen(rows: Rows, w: WorkflowId, hooks: seq<Webhook>)
    ensures OthersKept(rows, AllStored(rows, w, hooks), w) <==> forall h :: h in hooks ==> !Takes(rows, w, h)
    ensures OthersKept(rows, Without(AllStored(rows, w, hooks), w), w)
       <==> OthersKept(rows, AllStored(rows, w, hooks), w)
  {
    var rows' := AllStored(rows, w, hooks);
    if h :| h in hooks && Takes(rows, w, h) {
      var i :| 0 <= i < |hooks| && hooks[i] == h;
      StoredHasItsRow(rows, w, hooks, i);
      assert KeyOf(h) in Without(rows, w) && KeyOf(h) !in Without(rows', w);
    } else {
      forall k
        ensures k in Without(rows', w) <==> k in Without(rows, w)
        ensures k in Without(rows, w) ==> Without(rows', w)[k] == Without(rows, w)[k]
      {
        if h :| h in hooks && KeyOf(h) == k {
          var i :| 0 <= i < |hooks| && hooks[i] == h;
          StoredHasItsRow(rows, w, hooks, i);
          assert !Takes(rows, w, h);
        } else {
          OtherKeysStay(rows, w, hooks, k);
        }
      }
      assert Without(rows', w) == Without(rows, w);
    }
    assert Without(Without(rows', w), w) == Without(rows', w);
  }

  // ---------- adding the webhooks of a workflow ----------

  /** The plan of an addition: the webhooks, how each one goes, whether clearing succeeds,
      and how filling the cache fails once all are stored, if it does. */
  datatype Addition = Addition(hooks: seq<Webhook>, attempts: seq<Attempt>, clears: bool, after: Option<string>)

  ghost predicate IsPlan(a: Addition) {
    |a.hooks| == |a.attempts|
  }

  /** On initialization a refusal by the database is expected and ignored. */
  predicate IsFatal(a: Attempt, init: bool) {
    !a.Works? && !(init && a.failure.QueryFailed?)
  }

  /** The number of webhooks tried before the first fatal failure. */
  function FirstFatal(attempts: seq<Attempt>, init: bool): (i: nat)
    ensures i <= |attempts|
    ensures forall j :: 0 <= j < i ==> !IsFatal(attempts[j], init)
    ensures i < |attempts| ==> IsFatal(attempts[i], init)
  {
    if attempts == [] || IsFatal(attempts[0], init) then 0 else 1 + FirstFatal(attempts[1..], init)
  }

  /** The webhooks among the first `i` whose rows were stored. */
  function Reached(a: Addition, i: nat): seq<Webhook>
    requires IsPlan(a) && i <= |a.hooks|
  {
    if i == 0 then []
    else if a.attempts[i - 1].StoreFails? then Reached(a, i - 1)
    else Reached(a, i - 1) + [a.hooks[i - 1]]
  }

  /** The rows once the first `i` webhooks have been tried, one after the other. */
  function Progress(rows: Rows, w: WorkflowId, a: Addition, i: nat): Rows
    requires IsPlan(a) && i <= |a.hooks|
  {
    if i == 0 then rows
    else
      var before := Progress(rows, w, a, i - 1);
      if a.attempts[i - 1].StoreFails? then before else Stored(before, w, a.hooks[i - 1])
  }

  /** These are the rows with those of the webhooks reached stored. */
  lemma {:induction false} ProgressStores(rows: Rows, w: WorkflowId, a: Addition, i: nat)
    requires IsPlan(a) && i <= |a.hooks|
    ensures Progress(rows, w, a, i) == AllStored(rows, w, Reached(a, i))
  {
    if i == 0 {
    } else {
      ProgressStores(rows, w, a, i - 1);
      AllStoredSnoc(rows, w, Reached(a, i - 1), a.hooks[i - 1]);
    }
  }

  lemma AllStoredSnoc(rows: Rows, w: WorkflowId, hooks: seq<Webhook>, h: Webhook)
    ensures AllStored(rows, w, hooks + [h]) == Stored(AllStored(rows, w, hooks), w, h)
  {
    assert (hooks + [h])[..|hooks|] == hooks;
  }

  function ErrorFor(h: Webhook, failure: Failure): Error {
    match failure
    case QueryFailed => PathTaken(h.node)
    case Thrown(message, detail) => Other(if detail != "" then detail else message)
  }

  /** The rows and the error after the webhooks of `w` are added. */
  function AfterAdding(rows: Rows, w: WorkflowId, a: Addition, init: bool): (Rows, Option<Error>)
    requires IsPlan(a)
  {
    var f := FirstFatal(a.attempts, init);
    if f == |a.hooks| then
      (Progress(rows, w, a, f), if a.hooks != [] && a.after.Some? then Some(Other(a.after.value)) else None)
    else
      (Cleared(Progress(rows, w, a, f + 1), w, a.clears), Some(ErrorFor(a.hooks[f], a.attempts[f].failure)))
  }

  /** The number of webhooks tried: all, or those up to the first fatal failure. */
  function Tried(a: Addition, init: bool): (n: nat)
    requires IsPlan(a)
    ensures n <= |a.hooks|
  {
    var f := FirstFatal(a.attempts, init);
    if f == |a.hooks| then f else f + 1
  }

  /** The webhooks whose rows an addition stored by the time it ended. */
  function StoredBy(a: Addition, init: bool): seq<Webhook>
    requires IsPlan(a)
  {
    Reached(a, Tried(a, init))
  }

  lemma AfterAddingRows(rows: Rows, w: WorkflowId, a: Addition, init: bool)
    requires IsPlan(a)
    ensures AfterAdding(rows, w, a, init).0
         == Cleared(Progress(rows, w, a, Tried(a, init)), w, FirstFatal(a.attempts, init) < |a.hooks| && a.clears)
  {
  }

  /** What is stored by then, in terms of the webhooks reached. */
  lemma AfterAddingStores(rows: Rows, w: WorkflowId, a: Addition, init: bool)
    requires IsPlan(a)
    ensures AfterAdding(rows, w, a, init).0
         == Cleared(AllStored(rows, w, StoredBy(a, init)), w, FirstFatal(a.attempts, init) < |a.hooks| && a.clears)
  {
    AfterAddingRows(rows, w, a, init);
    ProgressStores(rows, w, a, Tried(a, init));
  }

  lemma {:induction false} ReachedAll(a: Addition, i: nat)
    requires IsPlan(a) && i <= |a.hooks| && forall j :: 0 <= j < i ==> !a.attempts[j].StoreFails?
    ensures Reached(a, i) == a.hooks[..i]
  {
    if i == 0 {
    } else {
      ReachedAll(a, i - 1);
    }
  }

  /** Outside initialization no webhook is passed over. */
  lemma AllAreStored(a: Addition)
    requires IsPlan(a) && FirstFatal(a.attempts, false) == |a.hooks|
    ensures StoredBy(a, false) == a.hooks
  {
    ReachedAll(a, |a.hooks|);
  }

  /** Outside initialization the addition is all or nothing: without an error every webhook
      has its row; if a webhook fails and clearing succeeds, no row of the workflow remains. */
  lemma AdditionIsAllOrNothing(rows: Rows, w: WorkflowId, a: Addition)
    requires IsPlan(a)
    ensures var (rows', error) := AfterAdding(rows, w, a, false);
            && (error.None? ==>
                  && rows' == AllStored(rows, w, a.hooks)
                  && forall i :: 0 <= i < |a.hooks| ==>
                       KeyOf(a.hooks[i]) in rows' && rows'[KeyOf(a.hooks[i])].workflowId == w)
            && (error.Some? && FirstFatal(a.attempts, false) < |a.hooks| && a.clears ==>
                  forall k :: k in rows' ==> rows'[k].workflowId != w)
  {
    AfterAddingStores(rows, w, a, false);
    if FirstFatal(a.attempts, false) == |a.hooks| {
      AllAreStored(a);
    }
    forall i | 0 <= i < |a.hooks|
      ensures KeyOf(a.hooks[i]) in AllStored(rows, w, a.hooks)
      ensures AllStored(rows, w, a.hooks)[KeyOf(a.hooks[i])].workflowId == w
    {
      StoredHasItsRow(rows, w, a.hooks, i);
    }
  }

  /** The exception: an error after the last webhook, when the cache is filled, is not compensated;
      every row stays. */
  lemma LateErrorKeepsTheRows(rows: Rows, w: WorkflowId, a: Addition)
    requires IsPlan(a)
    ensures var (rows', error) := AfterAdding(rows, w, a, false);
            error.Some? && FirstFatal(a.attempts, false) == |a.hooks| ==>
              rows' == AllStored(rows, w, a.hooks) && a.hooks != []
  {
    AfterAddingStores(rows, w, a, false);
    if FirstFatal(a.attempts, false) == |a.hooks| {
      AllAreStored(a);
    }
  }

  /** For every outcome, the rows of other workflows are kept if and only if no webhook whose row
      was stored has a key that another workflow holds. */
  lemma AdditionKeepsOthersExactlyWhen(rows: Rows, w: WorkflowId, a: Addition, init: bool)
    requires IsPlan(a)
    ensures OthersKept(rows, AfterAdding(rows, w, a, init).0, w)
       <==> forall h :: h in StoredBy(a, init) ==> !Takes(rows, w, h)
  {
    AfterAddingStores(rows, w, a, init);
    OthersKeptExactlyWhen(rows, w, StoredBy(a, init));
  }

  function KeysOf(hooks: seq<Webhook>): set<Key> {
    set i | 0 <= i < |hooks| :: KeyOf(hooks[i])
  }

  /** Storing and clearing takes away the rows of every key stored, whoever held it. */
  lemma ClearedAfterStoring(rows: Rows, w: WorkflowId, hooks: seq<Webhook>)
    ensures Without(AllStored(rows, w, hooks), w) == Without(rows - KeysOf(hooks), w)
  {
    var rows' := AllStored(rows, w, hooks);
    forall k
      ensures k in Without(rows', w) <==> k in Without(rows - KeysOf(hooks), w)
      ensures k in Without(rows', w) ==> rows'[k] == rows[k]
    {
      if k in KeysOf(hooks) {
        var i :| 0 <= i < |hooks| && KeyOf(hooks[i]) == k;
        StoredHasItsRow(rows, w, hooks, i);
      } else {
        OtherKeysStay(rows, w, hooks, k);
      }
    }
  }

  /** An addition that fails and clears leaves exactly the rows of other workflows at keys it did
      not store: a row it took from another workflow is not given back. */
  lemma TakenRowsAreLost(rows: Rows, w: WorkflowId, a: Addition, init: bool)
    requires IsPlan(a) && a.clears && FirstFatal(a.attempts, init) < |a.hooks|
    ensures AfterAdding(rows, w, a, init).0 == Without(rows - KeysOf(StoredBy(a, init)), w)
  {
    AfterAddingStores(rows, w, a, init);
    ClearedAfterStoring(rows, w, StoredBy(a, init));
  }
}
