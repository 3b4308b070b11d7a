/**
 * The account deletion page: reauthentication by password prompt, the
 * deletion reason logged before anything is deleted, and two handlers: one
 * that deletes only the sign-in account, and one that deletes everything the
 * user left behind (profile document, answers in the realtime database with
 * the answer counts decremented, logs and recordings in storage) and the
 * sign-in account last. Backend results and dialog answers are inputs.
 */
module DeleteAccount {
  import opened Common

  const PromptText: string := "Biztonsági okokból kérjük adja meg újra a jelszavát:"
  const WrongPasswordAlert: string := "Helytelen jelszó – nem sikerült újra bejelentkezni."
  const ProfileFailedAlert: string := "Nem sikerült törölni a profilt."
  const AllFailedAlert: string := "Hiba a teljes törlés során."
  const NoReason: string := "no reason provided"
  const DeleteAction: string := "delete_account"
  const HomePath: string := "/"

  /** The signed-in user. */
  datatype User = User(uid: string, email: string)

  // ---------------------------------------------------------------------------
  // The realtime database snapshot and the multi-path update
  // ---------------------------------------------------------------------------

  /** A concept under a category: its key, the keys of its answers, and its stored answer count. */
  datatype ConceptNode = ConceptNode(key: string, answers: seq<string>, answerCount: Option<int>)

  /** A category: its key and its concepts (none when the entry is missing). */
  datatype CategoryNode = CategoryNode(key: string, concepts: seq<ConceptNode>)

  /** A path of the multi-path update below database/categories. */
  datatype Path =
    | AnswerPath(category: string, concept: string, child: string)
    | CountPath(category: string, concept: string)

  datatype UpdateValue = Null | Count(n: int)

  /** How many answers are keyed by `uid`. */
  function Occurrences(children: seq<string>, uid: string): (n: nat)
    ensures n <= |children|
    ensures n == 0 <==> uid !in children
  {
    if children == [] then 0
    else Occurrences(children[..|children| - 1], uid) + (if children[|children| - 1] == uid then 1 else 0)
  }

  lemma OccurrencesStep(children: seq<string>, k: nat, uid: string)
    requires k < |children|
    ensures Occurrences(children[..k + 1], uid) == Occurrences(children[..k], uid) + (if children[k] == uid then 1 else 0)
  {
    assert children[..k + 1][..k] == children[..k];
  }

  /** `Math.max(0, oldCount - removed)` */
  function DecrementedCount(oldCount: Option<int>, removed: nat): (n: int)
    ensures n >= 0
    ensures oldCount.Some? && oldCount.value >= removed ==> n == oldCount.value - removed
    ensures oldCount.None? || oldCount.value <= removed ==> n == 0
  {
    var current := if oldCount.Some? then oldCount.value else 0;
    if current - removed >= 0 then current - removed else 0
  }

  /** The entries one concept contributes: its answer keyed by `uid` nulled and its count decremented, or nothing. */
  function ConceptUpdate(category: string, c: ConceptNode, uid: string): map<Path, UpdateValue> {
    var removed := Occurrences(c.answers, uid);
    if removed > 0 then
      map[AnswerPath(category, c.key, uid) := Null, CountPath(category, c.key) := Count(DecrementedCount(c.answerCount, removed))]
    else map[]
  }

  /** The entries of the first concepts of a category, later concepts overwriting earlier ones. */
  function CategoryUpdate(category: string, concepts: seq<ConceptNode>, uid: string): map<Path, UpdateValue> {
    if concepts == [] then map[]
    else CategoryUpdate(category, concepts[..|concepts| - 1], uid) + ConceptUpdate(category, concepts[|concepts| - 1], uid)
  }

  /** The whole multi-path update for a snapshot of the categories. */
  function AllUpdates(categories: seq<CategoryNode>, uid: string): map<Path, UpdateValue> {
    if categories == [] then map[]
    else
      var last := categories[|categories| - 1];
      AllUpdates(categories[..|categories| - 1], uid) + CategoryUpdate(last.key, last.concepts, uid)
  }

  /** The update is well formed: only `uid`'s answers are nulled, every count is non-negative, and a count is written exactly where an answer is removed. */
  predicate UpdateShape(m: map<Path, UpdateValue>, uid: string) {
    && (forall p :: p in m && p.AnswerPath? ==> p.child == uid && m[p] == Null && CountPath(p.category, p.concept) in m)
    && (forall p :: p in m && p.CountPath? ==> m[p].Count? && m[p].n >= 0 && AnswerPath(p.category, p.concept, uid) in m)
  }

  lemma {:induction false} CategoryUpdateShape(category: string, concepts: seq<ConceptNode>, uid: string)
    ensures UpdateShape(CategoryUpdate(category, concepts, uid), uid)
  {
    if concepts != [] {
      CategoryUpdateShape(category, concepts[..|concepts| - 1], uid);
    }
  }

  /** Only the user's own answers are nulled, counts never go negative, and counts are written only where an answer was removed. */
  lemma {:induction false} AllUpdatesShape(categories: seq<CategoryNode>, uid: string)
    ensures UpdateShape(AllUpdates(categories, uid), uid)
  {
    if categories != [] {
      var last := categories[|categories| - 1];
      AllUpdatesShape(categories[..|categories| - 1], uid);
      CategoryUpdateShape(last.key, last.concepts, uid);
    }
  }

  lemma {:induction false} CategoryUpdateCovers(category: string, concepts: seq<ConceptNode>, uid: string, j: int)
    requires 0 <= j < |concepts| && uid in concepts[j].answers
    ensures AnswerPath(category, concepts[j].key, uid) in CategoryUpdate(category, concepts, uid)
  {
    if j < |concepts| - 1 {
      CategoryUpdateCovers(category, concepts[..|concepts| - 1], uid, j);
    }
  }

  /** Every answer the user left in the snapshot is nulled by the update. */
  lemma {:induction false} AllUpdatesCovers(categories: seq<CategoryNode>, uid: string, i: int, j: int)
    requires 0 <= i < |categories| && 0 <= j < |categories[i].concepts|
    requires uid in categories[i].concepts[j].answers
    ensures AnswerPath(categories[i].key, categories[i].concepts[j].key, uid) in AllUpdates(categories, uid)
  {
    if i < |categories| - 1 {
      AllUpdatesCovers(categories[..|categories| - 1], uid, i, j);
    } else {
      CategoryUpdateCovers(categories[i].key, categories[i].concepts, uid, j);
    }
  }

  /** A user without answers leaves nothing to update. */
  lemma {:induction false} NoAnswersNoUpdate(categories: seq<CategoryNode>, uid: string)
    requires forall i, j :: 0 <= i < |categories| && 0 <= j < |categories[i].concepts| ==> uid !in categories[i].concepts[j].answers
    ensures AllUpdates(categories, uid) == map[]
  {
    if categories != [] {
      var init := categories[..|categories| - 1];
      var last := categories[|categories| - 1];
      NoAnswersNoUpdate(init, uid);
      NoAnswersInCategory(last.key, last.concepts, uid);
    }
  }

  lemma {:induction false} NoAnswersInCategory(category: string, concepts: seq<ConceptNode>, uid: string)
    requires forall j :: 0 <= j < |concepts| ==> uid !in concepts[j].answers
    ensures CategoryUpdate(category, concepts, uid) == map[]
  {
    if concepts != [] {
      NoAnswersInCategory(category, concepts[..|concepts| - 1], uid);
    }
  }

  /** The innermost loop: the answer children of one concept, then its count if anything was removed. */
  method AddConcept(category: string, c: ConceptNode, uid: string, multiUpdate: map<Path, UpdateValue>)
    returns (r: map<Path, UpdateValue>)
    ensures r == multiUpdate + ConceptUpdate(category, c, uid)
  {
    r := multiUpdate;
    var removed := 0;
    var k := 0;
    while k < |c.answers|
      invariant 0 <= k <= |c.answers|
      invariant removed == Occurrences(c.answers[..k], uid)
      invariant r == if removed > 0 then multiUpdate[AnswerPath(category, c.key, uid) := Null] else multiUpdate
    {
      OccurrencesStep(c.answers, k, uid);
      if c.answers[k] == uid {
        r := r[AnswerPath(category, c.key, c.answers[k]) := Null];
        removed := removed + 1;
      }
      k := k + 1;
    }
    assert c.answers[..k] == c.answers;
    if removed > 0 {
      r := r[CountPath(category, c.key) := Count(DecrementedCount(c.answerCount, removed))];
    }
    ConceptUpdateEntries(category, c, uid, multiUpdate);
  }

  /** Adding one concept's entries to an update, spelled out key by key. */
  lemma ConceptUpdateEntries(category: string, c: ConceptNode, uid: string, m: map<Path, UpdateValue>)
    ensures var removed := Occurrences(c.answers, uid);
      m + ConceptUpdate(category, c, uid) ==
        if removed > 0 then
          m[AnswerPath(category, c.key, uid) := Null][CountPath(category, c.key) := Count(DecrementedCount(c.answerCount, removed))]
        else m
  {
  }

  lemma UnionAssoc(a: map<Path, UpdateValue>, b: map<Path, UpdateValue>, c: map<Path, UpdateValue>)
    ensures (a + b) + c == a + (b + c)
  {
  }

  /** The loop over the concepts of one category. */
  method AddCategory(category: CategoryNode, uid: string, multiUpdate: map<Path, UpdateValue>)
    returns (r: map<Path, UpdateValue>)
    ensures r == multiUpdate + CategoryUpdate(category.key, category.concepts, uid)
  {
    var concepts := category.concepts;
    r := multiUpdate;
    var j := 0;
    while j < |concepts|
      invariant 0 <= j <= |concepts|
      invariant r == multiUpdate + CategoryUpdate(category.key, concepts[..j], uid)
    {
      assert concepts[..j + 1][..j] == concepts[..j];
      UnionAssoc(multiUpdate, CategoryUpdate(category.key, concepts[..j], uid), ConceptUpdate(category.key, concepts[j], uid));
      r := AddConcept(category.key, concepts[j], uid, r);
      j := j + 1;
    }
    assert concepts[..j] == concepts;
  }

  /** The nested loops over categories, concepts and answer children that fill `multiUpdate`. */
  method BuildMultiUpdate(categories: seq<CategoryNode>, uid: string) returns (multiUpdate: map<Path, UpdateValue>)
    ensures multiUpdate == AllUpdates(categories, uid)
  {
    multiUpdate := map[];
    var i := 0;
    while i < |categories|
      invariant 0 <= i <= |categories|
      invariant multiUpdate == AllUpdates(categories[..i], uid)
    {
      assert categories[..i + 1][..i] == categories[..i];
      multiUpdate := AddCategory(categories[i], uid, multiUpdate);
      i := i + 1;
    }
    assert categories[..i] == categories;
  }

  // ---------------------------------------------------------------------------
  // The calls of the two handlers
  // ---------------------------------------------------------------------------

  datatype Call =
    | Reauthenticate(email: string, password: string)
    | LogReason(entryId: string, userID: string, date: string, message: string, action: string)
    | DeleteUserDoc(uid: string)
    | ReadCategories
    | UpdateDatabase(update: map<Path, UpdateValue>)
    | DeleteUserLogs(uid: string)
    | DeleteUserAudio(uid: string)
    | DeleteAuthUser(uid: string)
    | GoTo(path: string)
    | Alert(text: string)

  /** The calls that remove data. */
  predicate Destructive(c: Call) {
    c.DeleteUserDoc? || c.UpdateDatabase? || c.DeleteUserLogs? || c.DeleteUserAudio? || c.DeleteAuthUser?
  }

  /** The position of each kind of call in the deletion order; an alert always ends a run. */
  function Rank(c: Call): nat {
    match c
    case Reauthenticate(_, _) => 0
    case LogReason(_, _, _, _, _) => 1
    case DeleteUserDoc(_) => 2
    case ReadCategories => 3
    case UpdateDatabase(_) => 4
    case DeleteUserLogs(_) => 5
    case DeleteUserAudio(_) => 6
    case DeleteAuthUser(_) => 7
    case GoTo(_) => 8
    case Alert(_) => 9
  }

  /** The calls follow the deletion order, each kind at most once. */
  predicate InDeletionOrder(calls: seq<Call>) {
    forall i, j :: 0 <= i < j < |calls| ==> Rank(calls[i]) < Rank(calls[j])
  }

  /**
   * promptReauth: no user, or a cancelled or empty prompt, fails without a
   * request; otherwise reauthentication is requested and a failure alerts.
   * `password` is the prompt's answer (None when cancelled).
   */
  function Reauth(user: Option<User>, password: Option<string>, reauthOk: bool): (r: (seq<Call>, bool))
    ensures r.1 <==> user.Some? && password.Some? && password.value != "" && reauthOk
    ensures r.0 == [] <==> user.None? || password.None? || password.value == ""
  {
    if user.None? then ([], false)
    else if password.None? || password.value == "" then ([], false)
    else if !reauthOk then ([Reauthenticate(user.value.email, password.value), Alert(WrongPasswordAlert)], false)
    else ([Reauthenticate(user.value.email, password.value)], true)
  }

  /** Reauthentication deletes nothing. */
  lemma ReauthHarmless(user: Option<User>, password: Option<string>, reauthOk: bool)
    ensures forall c :: c in Reauth(user, password, reauthOk).0 ==> !Destructive(c)
  {
  }

  /** logDeletionReason: one contact entry keyed by the uid, with the reason or a default; nothing without a uid. */
  function ReasonLog(uid: string, reason: string, now: string): (calls: seq<Call>)
    ensures uid == "" <==> calls == []
    ensures uid != "" ==> calls == [LogReason("DELETE_" + uid, uid, now, if reason == "" then NoReason else reason, DeleteAction)]
  {
    if uid == "" then [] else [LogReason("DELETE_" + uid, uid, now, if reason == "" then NoReason else reason, DeleteAction)]
  }

  /** The step of the deletion that throws, if any. */
  datatype Stage = DocStage | ReadStage | UpdateStage | LogsStage | AudioStage | AuthStage

  /** A step of the try block: its request and the stage it belongs to. */
  datatype Step = Step(call: Call, stage: Stage)

  /** The try block: the steps in order until one throws, which alerts; after all of them, home. */
  function RunSteps(steps: seq<Step>, failAt: Option<Stage>): seq<Call> {
    if steps == [] then [GoTo(HomePath)]
    else if Some(steps[0].stage) == failAt then [steps[0].call, Alert(AllFailedAlert)]
    else [steps[0].call] + RunSteps(steps[1..], failAt)
  }

  /** The requests of the steps, in order. */
  function StepCalls(steps: seq<Step>): (calls: seq<Call>)
    ensures |calls| == |steps|
    ensures forall i :: 0 <= i < |steps| ==> calls[i] == steps[i].call
  {
    if steps == [] then [] else [steps[0].call] + StepCalls(steps[1..])
  }

  /** No step throws. */
  predicate NoFailure(steps: seq<Step>, failAt: Option<Stage>) {
    forall i :: 0 <= i < |steps| ==> Some(steps[i].stage) != failAt
  }

  /** The update for a snapshot, empty when the snapshot does not exist. */
  function UpdateFor(categories: Option<seq<CategoryNode>>, uid: string): map<Path, UpdateValue> {
    if categories.Some? then AllUpdates(categories.value, uid) else map[]
  }

  /** The steps of the full deletion; the database update only when it is non-empty. */
  function TrySteps(uid: string, update: map<Path, UpdateValue>): seq<Step> {
    [Step(DeleteUserDoc(uid), DocStage), Step(ReadCategories, ReadStage)]
    + (if update != map[] then [Step(UpdateDatabase(update), UpdateStage)] else [])
    + [Step(DeleteUserLogs(uid), LogsStage), Step(DeleteUserAudio(uid), AudioStage), Step(DeleteAuthUser(uid), AuthStage)]
  }

  /** The answers of the two dialogs and the backend outcomes of one run. */
  datatype Answers = Answers(password: Option<string>, reauthOk: bool, confirmed: bool, now: string, failAt: Option<Stage>)

  /** handleDeleteAll: all calls of one run. */
  function DeleteAll(user: Option<User>, reason: string, a: Answers, categories: Option<seq<CategoryNode>>): seq<Call> {
    if user.None? || user.value.uid == "" then []
    else
      var auth := Reauth(user, a.password, a.reauthOk);
      if !auth.1 || !a.confirmed then auth.0
      else
        auth.0 + ReasonLog(user.value.uid, reason, a.now)
        + RunSteps(TrySteps(user.value.uid, UpdateFor(categories, user.value.uid)), a.failAt)
  }

  /** handleDeleteProfile: all calls of one run; only the sign-in account is deleted. */
  function DeleteProfile(user: Option<User>, reason: string, a: Answers): seq<Call> {
    if user.None? then []
    else
      var auth := Reauth(user, a.password, a.reauthOk);
      if !auth.1 then auth.0
      else
        auth.0 + ReasonLog(user.value.uid, reason, a.now)
        + [DeleteAuthUser(user.value.uid)]
        + (if a.failAt == Some(AuthStage) then [Alert(ProfileFailedAlert)] else [GoTo(HomePath)])
  }

  // ---------------------------------------------------------------------------
  // What the two handlers guarantee
  // ---------------------------------------------------------------------------

  /** A run whose steps all rank at least `floor` requests nothing ranked below it (home and the alert rank last). */
  lemma {:induction false} RunStepsAbove(steps: seq<Step>, failAt: Option<Stage>, floor: nat)
    requires forall i :: 0 <= i < |steps| ==> floor <= Rank(steps[i].call)
    requires floor <= Rank(GoTo(HomePath))
    ensures forall c :: c in RunSteps(steps, failAt) ==> floor <= Rank(c)
  {
    if steps != [] && Some(steps[0].stage) != failAt {
      RunStepsAbove(steps[1..], failAt, floor);
    }
  }

  /** Steps in deletion order, all of them deletions, make a run in deletion order. */
  lemma {:induction false} RunStepsOrdered(steps: seq<Step>, failAt: Option<Stage>)
    requires forall i, j :: 0 <= i < j < |steps| ==> Rank(steps[i].call) < Rank(steps[j].call)
    requires forall i :: 0 <= i < |steps| ==> Rank(steps[i].call) <= Rank(DeleteAuthUser(""))
    ensures InDeletionOrder(RunSteps(steps, failAt))
  {
    if steps != [] && Some(steps[0].stage) != failAt {
      var tail := steps[1..];
      RunStepsOrdered(tail, failAt);
      RunStepsAbove(tail, failAt, Rank(steps[0].call) + 1);
      OrderedAppend([steps[0].call], RunSteps(tail, failAt));
    }
  }

  /** Everything a run requests is one of its steps, home, or the failure alert. */
  lemma {:induction false} RunStepsMembers(steps: seq<Step>, failAt: Option<Stage>)
    ensures forall c :: c in RunSteps(steps, failAt) ==> c == GoTo(HomePath) || c == Alert(AllFailedAlert) || c in StepCalls(steps)
  {
    if steps != [] && Some(steps[0].stage) != failAt {
      RunStepsMembers(steps[1..], failAt);
    }
  }

  /** A run goes home exactly when no step throws, and then it has made every request. */
  lemma {:induction false} RunStepsHome(steps: seq<Step>, failAt: Option<Stage>)
    requires forall i :: 0 <= i < |steps| ==> steps[i].call != GoTo(HomePath)
    ensures GoTo(HomePath) in RunSteps(steps, failAt) <==> NoFailure(steps, failAt)
    ensures NoFailure(steps, failAt) ==> RunSteps(steps, failAt) == StepCalls(steps) + [GoTo(HomePath)]
  {
    if steps != [] && Some(steps[0].stage) != failAt {
      RunStepsHome(steps[1..], failAt);
      if NoFailure(steps[1..], failAt) {
        assert NoFailure(steps, failAt) by {
          forall i | 0 <= i < |steps|
            ensures Some(steps[i].stage) != failAt
          {
            if i > 0 {
              assert steps[i] == steps[1..][i - 1];
            }
          }
        }
      } else {
        var i :| 0 <= i < |steps[1..]| && Some(steps[1..][i].stage) == failAt;
        assert Some(steps[i + 1].stage) == failAt;
      }
    }
  }

  /** The requests of the full deletion, in order. */
  lemma TryStepsCalls(uid: string, update: map<Path, UpdateValue>)
    ensures StepCalls(TrySteps(uid, update)) ==
      [DeleteUserDoc(uid), ReadCategories]
      + (if update != map[] then [UpdateDatabase(update)] else [])
      + [DeleteUserLogs(uid), DeleteUserAudio(uid), DeleteAuthUser(uid)]
  {
  }

  /** Two ordered runs, the first entirely before the second, make an ordered run. */
  lemma OrderedAppend(a: seq<Call>, b: seq<Call>)
    requires InDeletionOrder(a) && InDeletionOrder(b)
    requires forall x, y :: x in a && y in b ==> Rank(x) < Rank(y)
    ensures InDeletionOrder(a + b)
  {
    var ab := a + b;
    forall i, j | 0 <= i < j < |ab|
      ensures Rank(ab[i]) < Rank(ab[j])
    {
      if j < |a| {
        assert ab[i] == a[i] && ab[j] == a[j];
      } else if i >= |a| {
        assert ab[i] == b[i - |a|] && ab[j] == b[j - |a|];
      } else {
        assert ab[i] in a && ab[j] in b;
      }
    }
  }

  /** The try block keeps the deletion order and requests nothing that comes before the deletions. */
  lemma TryStepsOrdered(uid: string, update: map<Path, UpdateValue>, failAt: Option<Stage>)
    ensures InDeletionOrder(RunSteps(TrySteps(uid, update), failAt))
    ensures forall c :: c in RunSteps(TrySteps(uid, update), failAt) ==> Rank(c) >= 2
  {
    var steps := TrySteps(uid, update);
    var head := [Step(DeleteUserDoc(uid), DocStage), Step(ReadCategories, ReadStage)];
    var last := [Step(DeleteUserLogs(uid), LogsStage), Step(DeleteUserAudio(uid), AudioStage), Step(DeleteAuthUser(uid), AuthStage)];
    if update != map[] {
      assert steps == head + [Step(UpdateDatabase(update), UpdateStage)] + last;
    } else {
      assert steps == head + last;
    }
    RunStepsOrdered(steps, failAt);
    RunStepsAbove(steps, failAt, 2);
  }

  /** Nothing is deleted before the reason is logged, the sign-in account goes last, and each step happens at most once. */
  lemma DeleteAllOrdered(user: Option<User>, reason: string, a: Answers, categories: Option<seq<CategoryNode>>)
    ensures InDeletionOrder(DeleteAll(user, reason, a, categories))
  {
    if user.Some? && user.value.uid != "" {
      var uid := user.value.uid;
      var auth := Reauth(user, a.password, a.reauthOk);
      if auth.1 && a.confirmed {
        var run := RunSteps(TrySteps(uid, UpdateFor(categories, uid)), a.failAt);
        TryStepsOrdered(uid, UpdateFor(categories, uid), a.failAt);
        var prefix := auth.0 + ReasonLog(uid, reason, a.now);
        assert prefix == [Reauthenticate(user.value.email, a.password.value), LogReason("DELETE_" + uid, uid, a.now, if reason == "" then NoReason else reason, DeleteAction)];
        OrderedAppend(prefix, run);
      }
    }
  }

  /** Failed reauthentication or a declined confirmation deletes nothing. */
  lemma DeleteAllAborts(user: Option<User>, reason: string, a: Answers, categories: Option<seq<CategoryNode>>)
    requires a.password.None? || a.password.value == "" || !a.reauthOk || !a.confirmed
    ensures forall c :: c in DeleteAll(user, reason, a, categories) ==> !Destructive(c)
  {
    ReauthHarmless(user, a.password, a.reauthOk);
  }

  /** The calls of a run that got past the confirmation. */
  lemma DeleteAllCalls(user: Option<User>, reason: string, a: Answers, categories: Option<seq<CategoryNode>>)
    ensures var calls := DeleteAll(user, reason, a, categories);
      forall c :: c in calls ==>
        || c.Reauthenticate? || c.LogReason? || c == GoTo(HomePath) || c.Alert?
        || (user.Some? && c in StepCalls(TrySteps(user.value.uid, UpdateFor(categories, user.value.uid))))
  {
    if user.Some? && user.value.uid != "" {
      var uid := user.value.uid;
      var auth := Reauth(user, a.password, a.reauthOk);
      if auth.1 && a.confirmed {
        RunStepsMembers(TrySteps(uid, UpdateFor(categories, uid)), a.failAt);
      }
    }
  }

  /** The only database update a run of the try block can request is its own, non-empty one. */
  lemma UpdateInRun(uid: string, update: map<Path, UpdateValue>, failAt: Option<Stage>, m: map<Path, UpdateValue>)
    requires UpdateDatabase(m) in RunSteps(TrySteps(uid, update), failAt)
    ensures m == update && update != map[]
  {
    RunStepsMembers(TrySteps(uid, update), failAt);
    TryStepsCalls(uid, update);
  }

  /** The database update is the one built from the snapshot, issued only when non-empty, and well formed. */
  lemma DeleteAllUpdate(user: Option<User>, reason: string, a: Answers, categories: Option<seq<CategoryNode>>, m: map<Path, UpdateValue>)
    requires UpdateDatabase(m) in DeleteAll(user, reason, a, categories)
    ensures user.Some? && categories.Some? && m == AllUpdates(categories.value, user.value.uid) && m != map[]
    ensures UpdateShape(m, user.value.uid)
  {
    assert user.Some?;
    var uid := user.value.uid;
    var auth := Reauth(user, a.password, a.reauthOk);
    var update := UpdateFor(categories, uid);
    var run := RunSteps(TrySteps(uid, update), a.failAt);
    assert DeleteAll(user, reason, a, categories) == auth.0 + ReasonLog(uid, reason, a.now) + run;
    assert UpdateDatabase(m) in run;
    UpdateInRun(uid, update, a.failAt, m);
    AllUpdatesShape(categories.value, uid);
  }

  /** A run of the try block that goes home made every request, the sign-in account's deletion last. */
  lemma RunHome(uid: string, update: map<Path, UpdateValue>, failAt: Option<Stage>)
    requires GoTo(HomePath) in RunSteps(TrySteps(uid, update), failAt)
    ensures NoFailure(TrySteps(uid, update), failAt)
    ensures var run := RunSteps(TrySteps(uid, update), failAt);
      |run| >= 2 && run[|run| - 1] == GoTo(HomePath) && run[|run| - 2] == DeleteAuthUser(uid)
  {
    var steps := TrySteps(uid, update);
    TryStepsCalls(uid, update);
    RunStepsHome(steps, failAt);
  }

  /** A run goes home exactly when nothing threw, and then the sign-in account was deleted just before. */
  lemma DeleteAllSucceeds(user: Option<User>, reason: string, a: Answers, categories: Option<seq<CategoryNode>>)
    ensures var calls := DeleteAll(user, reason, a, categories);
      GoTo(HomePath) in calls ==>
        && user.Some? && |calls| >= 2
        && calls[|calls| - 1] == GoTo(HomePath) && calls[|calls| - 2] == DeleteAuthUser(user.value.uid)
        && NoFailure(TrySteps(user.value.uid, UpdateFor(categories, user.value.uid)), a.failAt)
  {
    var calls := DeleteAll(user, reason, a, categories);
    if GoTo(HomePath) in calls {
      var uid := user.value.uid;
      var auth := Reauth(user, a.password, a.reauthOk);
      var update := UpdateFor(categories, uid);
      var run := RunSteps(TrySteps(uid, update), a.failAt);
      var prefix := auth.0 + ReasonLog(uid, reason, a.now);
      assert calls == prefix + run;
      assert GoTo(HomePath) in run;
      RunHome(uid, update, a.failAt);
      assert calls[|calls| - 1] == run[|run| - 1] && calls[|calls| - 2] == run[|run| - 2];
    }
  }

  /** Deleting the profile removes only the sign-in account, after reauthentication and the logged reason. */
  lemma DeleteProfileSpec(user: Option<User>, reason: string, a: Answers)
    ensures var calls := DeleteProfile(user, reason, a);
      && InDeletionOrder(calls)
      && (forall c :: c in calls && Destructive(c) ==> user.Some? && c == DeleteAuthUser(user.value.uid))
      && (user.Some? ==> (DeleteAuthUser(user.value.uid) in calls <==> Reauth(user, a.password, a.reauthOk).1))
      && (GoTo(HomePath) in calls <==> user.Some? && Reauth(user, a.password, a.reauthOk).1 && a.failAt != Some(AuthStage))
  {
    ReauthHarmless(user, a.password, a.reauthOk);
  }

  // ---------------------------------------------------------------------------
  // The page
  // ---------------------------------------------------------------------------

  /** The two outcomes of handleDeleteAll for a signed-in user: stopped at a dialog, or everything after them. */
  lemma DeleteAllCases(user: Option<User>, reason: string, a: Answers, categories: Option<seq<CategoryNode>>)
    requires user.Some? && user.value.uid != ""
    ensures var auth := Reauth(user, a.password, a.reauthOk); var uid := user.value.uid;
      DeleteAll(user, reason, a, categories) ==
        if !auth.1 || !a.confirmed then auth.0
        else auth.0 + (ReasonLog(uid, reason, a.now) + RunSteps(TrySteps(uid, UpdateFor(categories, uid)), a.failAt))
  {
  }

  class DeleteAccountPage {
    var reason: string
    var loading: bool
    var log: seq<Call>

    constructor ()
      ensures reason == "" && !loading && log == []
    {
      reason, loading, log := "", false, [];
    }

    method SetReason(text: string)
      modifies this`reason
      ensures reason == text
    {
      reason := text;
    }

    method PromptReauth(user: Option<User>, password: Option<string>, reauthOk: bool) returns (ok: bool)
      modifies this`log
      ensures var r := Reauth(user, password, reauthOk); log == old(log) + r.0 && ok == r.1
    {
      if user.None? {
        return false;
      }
      if password.None? || password.value == "" {
        return false;
      }
      log := log + [Reauthenticate(user.value.email, password.value)];
      if !reauthOk {
        log := log + [Alert(WrongPasswordAlert)];
        return false;
      }
      return true;
    }

    method LogDeletionReason(uid: string, now: string)
      modifies this`log
      ensures log == old(log) + ReasonLog(uid, reason, now)
    {
      if uid == "" {
        return;
      }
      var message := if reason == "" then NoReason else reason;
      log := log + [LogReason("DELETE_" + uid, uid, now, message, DeleteAction)];
    }

    /** handleDeleteProfile; loading is reset on every path after it was set. */
    method HandleDeleteProfile(user: Option<User>, a: Answers)
      modifies this`loading, this`log
      ensures log == old(log) + DeleteProfile(user, old(reason), a)
      ensures loading == (if user.None? then old(loading) else false)
    {
      if user.None? {
        return;
      }
      loading := true;
      var ok := PromptReauth(user, a.password, a.reauthOk);
      if !ok {
        loading := false;
        return;
      }
      LogDeletionReason(user.value.uid, a.now);
      log := log + [DeleteAuthUser(user.value.uid)];
      if a.failAt == Some(AuthStage) {
        log := log + [Alert(ProfileFailedAlert)];
      } else {
        log := log + [GoTo(HomePath)];
      }
      loading := false;
    }

    /** handleDeleteAll; loading is reset on every path after it was set. */
    method HandleDeleteAll(user: Option<User>, a: Answers, categories: Option<seq<CategoryNode>>)
      modifies this`loading, this`log
      ensures log == old(log) + DeleteAll(user, old(reason), a, categories)
      ensures loading == (if user.None? || user.value.uid == "" then old(loading) else false)
    {
      if user.None? || user.value.uid == "" {
        return;
      }
      var uid := user.value.uid;
      ghost var log0 := log;
      ghost var auth := Reauth(user, a.password, a.reauthOk);
      ghost var rest := ReasonLog(uid, reason, a.now) + RunSteps(TrySteps(uid, UpdateFor(categories, uid)), a.failAt);
      DeleteAllCases(user, reason, a, categories);
      loading := true;
      var ok := PromptReauth(user, a.password, a.reauthOk);
      if !ok || !a.confirmed {
        loading := false;
        return;
      }
      DeleteEverything(uid, a, categories);
      assert log == log0 + (auth.0 + rest);
      loading := false;
    }

    /** The part of handleDeleteAll after both dialogs: the reason is logged, then the try block runs. */
    method DeleteEverything(uid: string, a: Answers, categories: Option<seq<CategoryNode>>)
      requires uid != ""
      modifies this`log
      ensures log == old(log) + ReasonLog(uid, reason, a.now) + RunSteps(TrySteps(uid, UpdateFor(categories, uid)), a.failAt)
    {
      LogDeletionReason(uid, a.now);
      var update: map<Path, UpdateValue> := map[];
      if categories.Some? {
        update := BuildMultiUpdate(categories.value, uid);
      }
      var calls := RunTry(uid, update, a.failAt);
      log := log + calls;
    }
  }

  /**
   * One awaited request of the try block after the requests `prefix`: it is
   * made, and when its stage throws the alert follows and the block ends.
   */
  method Attempt(prefix: seq<Call>, step: Step, rest: seq<Step>, failAt: Option<Stage>) returns (calls: seq<Call>, stop: bool)
    ensures stop <==> Some(step.stage) == failAt
    ensures stop ==> calls == prefix + RunSteps([step] + rest, failAt)
    ensures !stop ==> calls == prefix + [step.call] && calls + RunSteps(rest, failAt) == prefix + RunSteps([step] + rest, failAt)
  {
    assert ([step] + rest)[0] == step && ([step] + rest)[1..] == rest;
    stop := Some(step.stage) == failAt;
    if stop {
      calls := prefix + [step.call, Alert(AllFailedAlert)];
    } else {
      calls := prefix + [step.call];
      assert calls + RunSteps(rest, failAt) == prefix + ([step.call] + RunSteps(rest, failAt));
    }
  }

  /** The try block of handleDeleteAll, request by request, stopping at the one that throws. */
  method RunTry(uid: string, update: map<Path, UpdateValue>, failAt: Option<Stage>) returns (calls: seq<Call>)
    ensures calls == RunSteps(TrySteps(uid, update), failAt)
  {
    var updateStep: seq<Step> := if update != map[] then [Step(UpdateDatabase(update), UpdateStage)] else [];
    var logs := Step(DeleteUserLogs(uid), LogsStage);
    var audio := Step(DeleteUserAudio(uid), AudioStage);
    var auth := Step(DeleteAuthUser(uid), AuthStage);
    var read := Step(ReadCategories, ReadStage);
    ghost var all := TrySteps(uid, update);
    assert all == [Step(DeleteUserDoc(uid), DocStage)] + ([read] + (updateStep + ([logs] + ([audio] + [auth]))));
    var stop;
    calls, stop := Attempt([], Step(DeleteUserDoc(uid), DocStage), [read] + (updateStep + ([logs] + ([audio] + [auth]))), failAt);
    if stop {
      return;
    }
    calls, stop := Attempt(calls, read, updateStep + ([logs] + ([audio] + [auth])), failAt);
    if stop {
      return;
    }
    if update != map[] {
      calls, stop := Attempt(calls, Step(UpdateDatabase(update), UpdateStage), [logs] + ([audio] + [auth]), failAt);
      if stop {
        return;
      }
    } else {
      assert updateStep + ([logs] + ([audio] + [auth])) == [logs] + ([audio] + [auth]);
    }
    calls, stop := Attempt(calls, logs, [audio] + [auth], failAt);
    if stop {
      return;
    }
    calls, stop := Attempt(calls, audio, [auth], failAt);
    if stop {
      return;
    }
    calls, stop := Attempt(calls, auth, [], failAt);
    if stop {
      assert [auth] + [] == [auth];
      return;
    }
    assert [auth] + [] == [auth];
    calls := calls + [GoTo(HomePath)];
  }
}
