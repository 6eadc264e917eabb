/**
 The route handlers of the question-and-answer application as methods on one
 store: the users table, the questions table, the session's user name and the
 counter the store draws fresh ids from.

 Every handler resolves the current user from the session, checks a role
 flag, and then either changes one table or filters it. A handler returns a
 `Response`: a redirect to another route, or a rendered page with an
 optional error message.
 */
module QAStore {
  import opened Wrappers
  import opened QAData
  import opened QALemmas

  /** A form route handles both the GET that shows the form and the POST that submits it. */
  datatype Verb = Get | Post

  datatype Target = ToLogin | ToIndex | ToUsers | ToAsk | ToUnanswered

  datatype Page =
    | HomePage(feed: seq<FeedEntry>)
    | RegisterPage
    | LoginPage
    | UsersPage(userList: seq<User>)
    | AskPage(experts: seq<User>)
    | UnansweredPage(pending: seq<PendingEntry>)
    | AnswerPage(target: Option<Question>)
    | QuestionPage(shown: Option<Question>)

  datatype Response = Redirect(to: Target) | Render(page: Page, error: Option<string>)

  /** The feed lines for `answered`, looking up asker and expert one question at a time. */
  method FeedLines(users: seq<User>, answered: seq<Question>) returns (list: seq<FeedEntry>)
    ensures |list| == |answered|
    ensures forall k | 0 <= k < |answered| :: list[k] == FeedEntryOf(users, answered[k])
  {
    list := [];
    var i := 0;
    while i < |answered|
      invariant 0 <= i <= |answered|
      invariant |list| == i
      invariant forall k | 0 <= k < i :: list[k] == FeedEntryOf(users, answered[k])
    {
      var q := answered[i];
      var askedBy := DisplayName(users, q.askedById);
      var answeredBy := DisplayName(users, q.expertId);
      list := list + [FeedEntry(q.id, q.questionText, askedBy, answeredBy)];
      i := i + 1;
    }
  }

  /** The pending lines for `pending`, looking up the asker one question at a time. */
  method PendingLines(users: seq<User>, pending: seq<Question>) returns (list: seq<PendingEntry>)
    ensures |list| == |pending|
    ensures forall k | 0 <= k < |pending| :: list[k] == PendingEntryOf(users, pending[k])
  {
    list := [];
    var i := 0;
    while i < |pending|
      invariant 0 <= i <= |pending|
      invariant |list| == i
      invariant forall k | 0 <= k < i :: list[k] == PendingEntryOf(users, pending[k])
    {
      var q := pending[i];
      var askedBy := DisplayName(users, q.askedById);
      list := list + [PendingEntry(q.id, q.questionText, askedBy)];
      i := i + 1;
    }
  }

  class Store {
    var users: seq<User>
    var questions: seq<Question>
    /** The name kept under the session's 'user' key, if any. */
    var session: Option<string>
    /** Every id issued so far is below this one. */
    var nextId: nat

    /** Password hashing with a given salt; what it computes is not modelled. */
    const hashPassword: (string, string) -> string
    /** Whether a password matches a stored digest; what it decides is not modelled. */
    const checkPassword: (string, string) -> bool

    /** Names are unique, and ids are unique and below `nextId`. */
    ghost predicate Valid()
      reads this
    {
      && NamesUnique(users)
      && UserIdsUnique(users)
      && QuestionIdsUnique(questions)
      && (forall u | u in users :: u.id < nextId)
      && (forall q | q in questions :: q.id < nextId)
    }

    /** `get_current_user`: `CurrentUser` over this store's users table and session. */
    function Current(): (r: Option<User>)
      reads this
      ensures r == CurrentUser(users, session)
    {
      CurrentUser(users, session)
    }

    constructor (hashPassword: (string, string) -> string, checkPassword: (string, string) -> bool)
      ensures Valid()
      ensures users == [] && questions == [] && session == None && nextId == 0
      ensures this.hashPassword == hashPassword && this.checkPassword == checkPassword
    {
      users := [];
      questions := [];
      session := None;
      nextId := 0;
      this.hashPassword := hashPassword;
      this.checkPassword := checkPassword;
    }

    /** `/`: the answered questions in store order, with asker and expert by name. */
    method Index() returns (r: Response)
      ensures r.Render? && r.page.HomePage? && r.error == None
      ensures |r.page.feed| == |AnsweredQuestions(questions)|
      ensures forall k | 0 <= k < |r.page.feed| ::
        r.page.feed[k] == FeedEntryOf(users, AnsweredQuestions(questions)[k])
    {
      var list := FeedLines(users, AnsweredQuestions(questions));
      r := Render(HomePage(list), None);
    }

    /** `/register`: a new name gets one new user record and a session; a taken name an error. */
    method Register(verb: Verb, name: string, password: string, salt: string) returns (r: Response)
      requires Valid()
      modifies this
      ensures Valid()
      ensures verb == Get ==> r == Render(RegisterPage, None) && unchanged(this)
      ensures verb == Post && HasName(old(users), name) ==>
        r == Render(RegisterPage, Some(UserAlreadyRegistered)) && unchanged(this)
      ensures verb == Post && !HasName(old(users), name) ==>
        && r == Redirect(ToIndex)
        && users == old(users) + [User(old(nextId), name, hashPassword(salt, password), Off,
                                       if name == AdminName then On else Off)]
        && questions == old(questions)
        && session == Some(name)
        && nextId == old(nextId) + 1
    {
      if verb == Get {
        return Render(RegisterPage, None);
      }
      var existing := FindUserByName(users, name);
      if existing.Some? {
        return Render(RegisterPage, Some(UserAlreadyRegistered));
      }
      var created := User(nextId, name, hashPassword(salt, password), Off, Off);
      users := users + [created];
      nextId := nextId + 1;
      if name == AdminName {
        GrantAdminOnAppended(old(users), created);
        users := GrantAdmin(users, AdminName);
      }
      session := Some(name);
      r := Redirect(ToIndex);
    }

    /** `/login`: an unknown name and a wrong password are told apart; neither table changes. */
    method Login(verb: Verb, name: string, password: string) returns (r: Response)
      requires Valid()
      modifies this
      ensures Valid()
      ensures users == old(users) && questions == old(questions) && nextId == old(nextId)
      ensures verb == Get ==> r == Render(LoginPage, None) && session == old(session)
      ensures verb == Post && !HasName(users, name) ==>
        r == Render(LoginPage, Some(UserNotFound)) && session == old(session)
      ensures verb == Post ==> forall u | u in users && u.name == name ::
        if checkPassword(u.password, password) then r == Redirect(ToIndex) && session == Some(name)
        else r == Render(LoginPage, Some(InvalidPassword)) && session == old(session)
    {
      if verb == Get {
        return Render(LoginPage, None);
      }
      var user := FindUserByName(users, name);
      if user.None? {
        return Render(LoginPage, Some(UserNotFound));
      }
      if !checkPassword(user.value.password, password) {
        return Render(LoginPage, Some(InvalidPassword));
      }
      session := Some(user.value.name);
      r := Redirect(ToIndex);
    }

    /** `/logout`: the session forgets its user; the tables stay as they are. */
    method Logout() returns (r: Response)
      requires Valid()
      modifies this
      ensures Valid()
      ensures r == Redirect(ToIndex) && session == None
      ensures users == old(users) && questions == old(questions) && nextId == old(nextId)
    {
      session := None;
      r := Redirect(ToIndex);
    }

    /** `/users`: the whole users table, for an admin only. */
    method Users() returns (r: Response)
      ensures Current().None? ==> r == Redirect(ToLogin)
      ensures Current().Some? && !IsSet(Current().value.admin) ==> r == Redirect(ToIndex)
      ensures Current().Some? && IsSet(Current().value.admin) ==> r == Render(UsersPage(users), None)
    {
      var user := Current();
      if user.None? {
        return Redirect(ToLogin);
      }
      if user.value.admin == Off {
        return Redirect(ToIndex);
      }
      r := Render(UsersPage(users), None);
    }

    /**
      `/promote/<id>`: an admin sets the expert flag of the user with that id;
      nothing else changes. An id that matches no user changes nothing.
     */
    method Promote(userId: nat) returns (r: Response)
      requires Valid()
      modifies this
      ensures Valid()
      ensures old(Current()).None? ==> r == Redirect(ToLogin) && unchanged(this)
      ensures old(Current()).Some? && !IsSet(old(Current()).value.admin) ==>
        r == Redirect(ToIndex) && unchanged(this)
      ensures old(Current()).Some? && IsSet(old(Current()).value.admin) ==>
        && r == Redirect(ToUsers)
        && users == SetExpert(old(users), userId)
        && |users| == |old(users)|
        && (forall k | 0 <= k < |users| ::
              users[k] == if old(users)[k].id == userId then old(users)[k].(expert := On) else old(users)[k])
        && questions == old(questions) && session == old(session) && nextId == old(nextId)
    {
      var user := Current();
      if user.None? {
        return Redirect(ToLogin);
      }
      if user.value.admin == Off {
        return Redirect(ToIndex);
      }
      SetExpertExact(users, userId);
      SetExpertKeepsKeys(users, userId);
      users := SetExpert(users, userId);
      r := Redirect(ToUsers);
    }

    /**
      `/ask`: a logged-in user adds one unanswered question addressed to the
      submitted expert id. The id is not checked against the users table.
     */
    method Ask(verb: Verb, questionText: string, expertId: nat) returns (r: Response)
      requires Valid()
      modifies this
      ensures Valid()
      ensures old(Current()).None? ==> r == Redirect(ToLogin) && unchanged(this)
      ensures old(Current()).Some? && verb == Get ==>
        r == Render(AskPage(Experts(users)), None) && unchanged(this)
      ensures old(Current()).Some? && verb == Post && questionText == "" ==>
        r == Redirect(ToAsk) && unchanged(this)
      ensures old(Current()).Some? && verb == Post && questionText != "" ==>
        && r == Redirect(ToIndex)
        && questions == old(questions) + [Question(old(nextId), questionText, "", old(Current()).value.id, expertId)]
        && users == old(users) && session == old(session) && nextId == old(nextId) + 1
    {
      var user := Current();
      if user.None? {
        return Redirect(ToLogin);
      }
      if verb == Get {
        return Render(AskPage(Experts(users)), None);
      }
      if questionText == "" {
        return Redirect(ToAsk);
      }
      questions := questions + [Question(nextId, questionText, "", user.value.id, expertId)];
      nextId := nextId + 1;
      r := Redirect(ToIndex);
    }

    /** `/unanswered`: the current expert's questions that have no answer yet, in store order. */
    method Unanswered() returns (r: Response)
      ensures Current().None? ==> r == Redirect(ToLogin)
      ensures Current().Some? && !IsSet(Current().value.expert) ==> r == Redirect(ToIndex)
      ensures Current().Some? && IsSet(Current().value.expert) ==>
        && r.Render? && r.page.UnansweredPage? && r.error == None
        && |r.page.pending| == |PendingFor(questions, Current().value.id)|
        && forall k | 0 <= k < |r.page.pending| ::
             r.page.pending[k] == PendingEntryOf(users, PendingFor(questions, Current().value.id)[k])
    {
      var user := Current();
      if user.None? {
        return Redirect(ToLogin);
      }
      var me := user.value;
      if me.expert == Off {
        return Redirect(ToIndex);
      }
      var list := PendingLines(users, PendingFor(questions, me.id));
      r := Render(UnansweredPage(list), None);
    }

    /**
      `/answer/<id>`: any expert may show the question or overwrite its answer
      text. Whether the question is addressed to this expert is not checked.
     */
    method Answer(verb: Verb, questionId: nat, answerText: string) returns (r: Response)
      requires Valid()
      modifies this
      ensures Valid()
      ensures old(Current()).None? ==> r == Redirect(ToLogin) && unchanged(this)
      ensures old(Current()).Some? && !IsSet(old(Current()).value.expert) ==>
        r == Redirect(ToIndex) && unchanged(this)
      ensures old(Current()).Some? && IsSet(old(Current()).value.expert) && verb == Get ==>
        r == Render(AnswerPage(FindQuestion(questions, questionId)), None) && unchanged(this)
      ensures old(Current()).Some? && IsSet(old(Current()).value.expert) && verb == Post ==>
        && r == Redirect(ToUnanswered)
        && questions == SetAnswer(old(questions), questionId, answerText)
        && |questions| == |old(questions)|
        && (forall k | 0 <= k < |questions| ::
              questions[k] == if old(questions)[k].id == questionId
                              then old(questions)[k].(answerText := answerText)
                              else old(questions)[k])
        && users == old(users) && session == old(session) && nextId == old(nextId)
    {
      var user := Current();
      if user.None? {
        return Redirect(ToLogin);
      }
      if user.value.expert == Off {
        return Redirect(ToIndex);
      }
      if verb == Get {
        return Render(AnswerPage(FindQuestion(questions, questionId)), None);
      }
      SetAnswerExact(questions, questionId, answerText);
      questions := SetAnswer(questions, questionId, answerText);
      r := Redirect(ToUnanswered);
    }

    /** `/question/<id>`: the question with that id, or none, for anyone. */
    method ShowQuestion(questionId: nat) returns (r: Response)
      ensures r.Render? && r.page.QuestionPage? && r.error == None
      ensures r.page.shown.None? <==> forall q | q in questions :: q.id != questionId
      ensures r.page.shown.Some? ==> r.page.shown.value in questions && r.page.shown.value.id == questionId
    {
      r := Render(QuestionPage(FindQuestion(questions, questionId)), None);
    }
  }
}
