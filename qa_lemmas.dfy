/**
 Properties of the queries and updates in QAData that the handlers rely on:
 what `update_one` does when ids are unique, promotion is idempotent, the
 feed and pending filters keep store order, and an answer moves a question
 from its expert's pending list to the feed.
 */
module QALemmas {
  import opened Wrappers
  import opened QAData

  // ---------------------------------------------------------------------------
  // update_one on a table whose keys are unique touches exactly the records
  // with that key

  /** Promotion sets the expert flag of the user with the id, and changes nothing else. */
  lemma SetExpertExact(users: seq<User>, id: nat)
    requires UserIdsUnique(users)
    ensures |SetExpert(users, id)| == |users|
    ensures forall k | 0 <= k < |users| ::
      SetExpert(users, id)[k] == if users[k].id == id then users[k].(expert := On) else users[k]
  {
  }

  /** An answer overwrites the answer text of the question with the id, and changes nothing else. */
  lemma SetAnswerExact(questions: seq<Question>, id: nat, text: string)
    requires QuestionIdsUnique(questions)
    ensures |SetAnswer(questions, id, text)| == |questions|
    ensures forall k | 0 <= k < |questions| ::
      SetAnswer(questions, id, text)[k] ==
        if questions[k].id == id then questions[k].(answerText := text) else questions[k]
  {
  }

  /** Promoting a user a second time leaves the table as the first promotion left it. */
  lemma SetExpertIdempotent(users: seq<User>, id: nat)
    ensures SetExpert(SetExpert(users, id), id) == SetExpert(users, id)
  {
  }

  /** Promotion changes only the expert flag, so names and ids stay unique. */
  lemma SetExpertKeepsKeys(users: seq<User>, id: nat)
    ensures |SetExpert(users, id)| == |users|
    ensures forall k | 0 <= k < |users| ::
      SetExpert(users, id)[k].id == users[k].id && SetExpert(users, id)[k].name == users[k].name
    ensures NamesUnique(users) ==> NamesUnique(SetExpert(users, id))
    ensures UserIdsUnique(users) ==> UserIdsUnique(SetExpert(users, id))
  {
  }

  /** Answering changes only the answer text, so question ids stay unique. */
  lemma SetAnswerKeepsIds(questions: seq<Question>, id: nat, text: string)
    ensures QuestionIdsUnique(questions) ==> QuestionIdsUnique(SetAnswer(questions, id, text))
  {
  }

  // ---------------------------------------------------------------------------
  // Registration

  /** A user appended under a name nobody had is what `find_one` by that name returns. */
  lemma AppendedUserFound(users: seq<User>, u: User)
    requires !HasName(users, u.name)
    ensures FindUserByName(users + [u], u.name) == Some(u)
  {
  }

  /**
    Registering "admin" inserts the user with the flag off and then sets it
    with an update on the name; that update reaches the new record, because no
    earlier record has the name.
   */
  lemma GrantAdminOnAppended(users: seq<User>, u: User)
    requires !HasName(users, u.name)
    ensures GrantAdmin(users + [u], u.name) == users + [u.(admin := On)]
  {
  }

  // ---------------------------------------------------------------------------
  // The feed and the pending list

  /** Filtering distributes over concatenation: a filter keeps the order of what it keeps. */
  lemma {:induction false} FilterConcat<T(!new)>(a: seq<T>, b: seq<T>, keep: T -> bool)
    ensures Filter(a + b, keep) == Filter(a, keep) + Filter(b, keep)
  {
    if a == [] {
      assert a + b == b;
    } else {
      assert (a + b)[1..] == a[1..] + b;
      FilterConcat(a[1..], b, keep);
    }
  }

  /** The feed lists answered questions in store order. */
  lemma AnsweredConcat(a: seq<Question>, b: seq<Question>)
    ensures AnsweredQuestions(a + b) == AnsweredQuestions(a) + AnsweredQuestions(b)
  {
    FilterConcat(a, b, (q: Question) => q.answerText != "");
  }

  /** An expert's pending list is in store order. */
  lemma PendingConcat(a: seq<Question>, b: seq<Question>, expertId: nat)
    ensures PendingFor(a + b, expertId) == PendingFor(a, expertId) + PendingFor(b, expertId)
  {
    FilterConcat(a, b, (q: Question) => q.answerText == "" && q.expertId == expertId);
  }

  /** A non-empty answer takes the question off every expert's pending list. */
  lemma AnswerLeavesPending(questions: seq<Question>, id: nat, text: string, expertId: nat)
    requires QuestionIdsUnique(questions)
    requires text != ""
    ensures forall q | q in PendingFor(SetAnswer(questions, id, text), expertId) :: q.id != id
  {
  }

  /** A non-empty answer puts the question, with its answer, on the feed. */
  lemma AnswerReachesFeed(questions: seq<Question>, id: nat, text: string)
    requires QuestionIdsUnique(questions)
    requires text != ""
    requires FindQuestion(questions, id).Some?
    ensures FindQuestion(questions, id).value.(answerText := text) in AnsweredQuestions(SetAnswer(questions, id, text))
  {
  }
}
