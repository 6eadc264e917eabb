/**
 The records of the question-and-answer application and the document-store
 queries its handlers issue, as functions over the two tables.

 - `find_one` is a first-match search: `FirstIndex` gives the position of the
   first record that matches, and `FindUserByName`, `FindUserById` and
   `FindQuestion` return that record or none;
 - `find` is `Filter`, which keeps store order (`AnsweredQuestions`,
   `PendingFor`, `Experts`);
 - `update_one` changes the first record that matches (`GrantAdmin`,
   `SetExpert`, `SetAnswer`).
 */
module QAData {
  import opened Wrappers

  /** Flags are stored as the strings "0" and "1". */
  const Off: string := "0"
  const On: string := "1"

  /** The handlers test a flag with `== '0'`, so any other value counts as set. */
  predicate IsSet(flag: string) {
    flag != Off
  }

  /** The name that is granted the admin flag at registration. */
  const AdminName: string := "admin"

  /** Shown in place of a name when an id matches no user. */
  const UnknownName: string := "Unknown"

  const UserAlreadyRegistered: string := "User already registered"
  const UserNotFound: string := "User not found"
  const InvalidPassword: string := "Invalid password"

  datatype User = User(id: nat, name: string, password: string, expert: string, admin: string)

  /** `answerText == ""` means the question is not answered yet. */
  datatype Question = Question(id: nat, questionText: string, answerText: string, askedById: nat, expertId: nat)

  /** One line of the public feed: asker and expert by name. */
  datatype FeedEntry = FeedEntry(questionId: nat, question: string, askedBy: string, expert: string)

  /** One line of an expert's list of questions still to answer. */
  datatype PendingEntry = PendingEntry(questionId: nat, question: string, askedBy: string)

  // ---------------------------------------------------------------------------
  // Table invariants

  predicate NamesUnique(users: seq<User>) {
    forall i, j | 0 <= i < j < |users| :: users[i].name != users[j].name
  }

  predicate UserIdsUnique(users: seq<User>) {
    forall i, j | 0 <= i < j < |users| :: users[i].id != users[j].id
  }

  predicate QuestionIdsUnique(questions: seq<Question>) {
    forall i, j | 0 <= i < j < |questions| :: questions[i].id != questions[j].id
  }

  predicate HasName(users: seq<User>, name: string) {
    exists u :: u in users && u.name == name
  }

  /** Some user has the id: what `find_one({'_id': id})` on the users table succeeds on. */
  predicate HasId(users: seq<User>, id: nat) {
    exists u :: u in users && u.id == id
  }

  // ---------------------------------------------------------------------------
  // The two shapes of query the handlers use

  /** The position of the first element that `matches`, or `|s|` when none does. */
  function FirstIndex<T>(s: seq<T>, matches: T -> bool): (k: nat)
    ensures k <= |s|
    ensures k < |s| ==> matches(s[k])
    ensures forall j | 0 <= j < k :: !matches(s[j])
  {
    if s == [] then 0
    else if matches(s[0]) then 0
    else 1 + FirstIndex(s[1..], matches)
  }

  /** The elements of `s` that `keep` accepts, in their order in `s`. */
  function Filter<T(!new)>(s: seq<T>, keep: T -> bool): (r: seq<T>)
    ensures forall x :: x in r <==> x in s && keep(x)
    ensures |r| <= |s|
  {
    if s == [] then []
    else if keep(s[0]) then [s[0]] + Filter(s[1..], keep)
    else Filter(s[1..], keep)
  }

  // ---------------------------------------------------------------------------
  // find_one: the first record that matches, or none

  function UserIndexByName(users: seq<User>, name: string): nat {
    FirstIndex(users, (u: User) => u.name == name)
  }

  function UserIndexById(users: seq<User>, id: nat): nat {
    FirstIndex(users, (u: User) => u.id == id)
  }

  function QuestionIndexById(questions: seq<Question>, id: nat): nat {
    FirstIndex(questions, (q: Question) => q.id == id)
  }

  /** `users_collection.find_one({'name': name})` */
  function FindUserByName(users: seq<User>, name: string): (r: Option<User>)
    ensures r.None? <==> !HasName(users, name)
    ensures r.Some? ==> r.value in users && r.value.name == name
    ensures r.Some? && NamesUnique(users) ==> forall u | u in users && u.name == name :: u == r.value
  {
    var k := UserIndexByName(users, name);
    if k < |users| then Some(users[k]) else None
  }

  /** `users_collection.find_one({'_id': id})` */
  function FindUserById(users: seq<User>, id: nat): (r: Option<User>)
    ensures r.None? <==> forall u | u in users :: u.id != id
    ensures r.Some? ==> r.value in users && r.value.id == id
    ensures r.Some? && UserIdsUnique(users) ==> forall u | u in users && u.id == id :: u == r.value
  {
    var k := UserIndexById(users, id);
    if k < |users| then Some(users[k]) else None
  }

  /** `questions_collection.find_one({'_id': id})` */
  function FindQuestion(questions: seq<Question>, id: nat): (r: Option<Question>)
    ensures r.None? <==> forall q | q in questions :: q.id != id
    ensures r.Some? ==> r.value in questions && r.value.id == id
    ensures r.Some? && QuestionIdsUnique(questions) ==> forall q | q in questions && q.id == id :: q == r.value
  {
    var k := QuestionIndexById(questions, id);
    if k < |questions| then Some(questions[k]) else None
  }

  /** The user the session names, as `get_current_user` looks it up. */
  function CurrentUser(users: seq<User>, session: Option<string>): (r: Option<User>)
    ensures r.Some? <==> session.Some? && HasName(users, session.value)
    ensures r.Some? ==> r.value in users && r.value.name == session.value
  {
    match session
    case None => None
    case Some(name) => FindUserByName(users, name)
  }

  /**
    The asker's or expert's name as the feed and the pending list show it:
    the name of the user with the id, or "Unknown" when no user has it.
   */
  function DisplayName(users: seq<User>, id: nat): (n: string)
    ensures !HasId(users, id) ==> n == UnknownName
    ensures HasId(users, id) ==> exists u :: u in users && u.id == id && n == u.name
    ensures UserIdsUnique(users) ==> forall u | u in users && u.id == id :: n == u.name
  {
    match FindUserById(users, id)
    case Some(u) => u.name
    case None => UnknownName
  }

  /** The feed line for a question: its id and text, asker and expert by name or "Unknown". */
  function FeedEntryOf(users: seq<User>, q: Question): (e: FeedEntry)
    ensures e.questionId == q.id && e.question == q.questionText
    ensures !HasId(users, q.askedById) ==> e.askedBy == UnknownName
    ensures !HasId(users, q.expertId) ==> e.expert == UnknownName
    ensures HasId(users, q.askedById) ==> exists u :: u in users && u.id == q.askedById && e.askedBy == u.name
    ensures UserIdsUnique(users) ==> forall u | u in users && u.id == q.askedById :: e.askedBy == u.name
    ensures HasId(users, q.expertId) ==> exists u :: u in users && u.id == q.expertId && e.expert == u.name
    ensures UserIdsUnique(users) ==> forall u | u in users && u.id == q.expertId :: e.expert == u.name
  {
    FeedEntry(q.id, q.questionText, DisplayName(users, q.askedById), DisplayName(users, q.expertId))
  }

  /** The pending line for a question: its id and text, asker by name or "Unknown". */
  function PendingEntryOf(users: seq<User>, q: Question): (e: PendingEntry)
    ensures e.questionId == q.id && e.question == q.questionText
    ensures !HasId(users, q.askedById) ==> e.askedBy == UnknownName
    ensures HasId(users, q.askedById) ==> exists u :: u in users && u.id == q.askedById && e.askedBy == u.name
    ensures UserIdsUnique(users) ==> forall u | u in users && u.id == q.askedById :: e.askedBy == u.name
  {
    PendingEntry(q.id, q.questionText, DisplayName(users, q.askedById))
  }

  // ---------------------------------------------------------------------------
  // find: every record that matches, in store order

  /** `questions_collection.find({'answer_text': {'$ne': ''}})` */
  function AnsweredQuestions(questions: seq<Question>): (r: seq<Question>)
    ensures forall q :: q in r <==> q in questions && q.answerText != ""
    ensures |r| <= |questions|
  {
    Filter(questions, (q: Question) => q.answerText != "")
  }

  /** `questions_collection.find({'answer_text': '', 'expert_id': expertId})` */
  function PendingFor(questions: seq<Question>, expertId: nat): (r: seq<Question>)
    ensures forall q :: q in r <==> q in questions && q.answerText == "" && q.expertId == expertId
    ensures |r| <= |questions|
  {
    Filter(questions, (q: Question) => q.answerText == "" && q.expertId == expertId)
  }

  /** `users_collection.find({'expert': '1'})`: this query asks for "1" exactly. */
  function Experts(users: seq<User>): (r: seq<User>)
    ensures forall u :: u in r <==> u in users && u.expert == On
    ensures |r| <= |users|
  {
    Filter(users, (u: User) => u.expert == On)
  }

  // ---------------------------------------------------------------------------
  // update_one: the first record that matches gets the new field value

  /** `users_collection.update_one({'name': name}, {'$set': {'admin': '1'}})` */
  function GrantAdmin(users: seq<User>, name: string): (r: seq<User>)
    ensures |r| == |users|
    ensures forall k | 0 <= k < |users| ::
      r[k] == if k == UserIndexByName(users, name) then users[k].(admin := On) else users[k]
  {
    var k := UserIndexByName(users, name);
    if k < |users| then users[k := users[k].(admin := On)] else users
  }

  /** `users_collection.update_one({'_id': id}, {'$set': {'expert': '1'}})` */
  function SetExpert(users: seq<User>, id: nat): (r: seq<User>)
    ensures |r| == |users|
    ensures forall k | 0 <= k < |users| ::
      r[k] == if k == UserIndexById(users, id) then users[k].(expert := On) else users[k]
  {
    var k := UserIndexById(users, id);
    if k < |users| then users[k := users[k].(expert := On)] else users
  }

  /** `questions_collection.update_one({'_id': id}, {'$set': {'answer_text': text}})` */
  function SetAnswer(questions: seq<Question>, id: nat, text: string): (r: seq<Question>)
    ensures |r| == |questions|
    ensures forall k | 0 <= k < |questions| ::
      r[k] == if k == QuestionIndexById(questions, id) then questions[k].(answerText := text) else questions[k]
  {
    var k := QuestionIndexById(questions, id);
    if k < |questions| then questions[k := questions[k].(answerText := text)] else questions
  }
}
