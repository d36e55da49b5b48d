/** One confirm from look-up to answer, as the handler runs it over the diary. */
module ConfirmRun {
  import opened Basics
  import opened Lifecycle
  import opened Chain
  import opened Diary
  import opened DiaryProofs
  import opened DiaryStore
  import opened Confirming

  /** The answer of a call whose key is stored nowhere, on one diary throughout. */
  ghost function AnswerAlone(d: Diary, c: Call, text: Id -> string, now: int, linkFils: int): Answer {
    var read := ReadAnswer(c, HoldHasPerson(d, c.hold), linkFils);
    if read.Done? then read.answer else TransactAnswer(ConfirmVerdict(d, RequestOf(c, text), now))
  }

  /** A look-up by key, of which there are two: the handler's and the repository's. */
  method LookUpStore(store: Store, key: string) returns (seen: Option<Id>)
    ensures seen == if key in store.keys then Some(store.keys[key]) else None
  {
    seen := if key in store.keys then Some(store.keys[key]) else None;
  }

  method ReadHold(store: Store, c: Call, linkFils: int) returns (read: Phase)
    ensures read == ReadAnswer(c, HoldHasPerson(store.Contents(), c.hold), linkFils)
  {
    var visits := VisitRowsOf(store.rows, c.hold);
    HasVisitRow(store.Contents(), c.hold);
    read := ReadAnswer(c, visits != {}, linkFils);
  }

  /** The repository's part: the key once more, and then the transaction. */
  method ConfirmInStore(store: Store, q: ConfirmRequest, now: int) returns (answer: Answer)
    requires store.Valid()
    modifies store
    ensures store.Valid()
    ensures q.key in old(store.keys) ==>
      answer == ReplayedFrom(old(store.keys)[q.key]) && store.Contents() == old(store.Contents())
    ensures q.key !in old(store.keys) ==>
      && answer == TransactAnswer(ConfirmVerdict(old(store.Contents()), q, now))
      && store.Contents() == Confirm(old(store.Contents()), q, now)
  {
    var seen := LookUpStore(store, q.key);
    if seen.Some? { return ReplayedFrom(seen.value); }
    var outcome := store.ConfirmHold(q, now);
    answer := TransactAnswer(outcome);
  }

  /** A caller whose key is stored is answered from it; anybody else is answered by the diary there is. */
  method Execute(store: Store, c: Call, text: Id -> string, now: int, linkFils: int) returns (answer: Answer)
    requires store.Valid()
    modifies store
    ensures store.Valid()
    ensures KeyOf(c, text) in old(store.keys) ==>
      answer == ReplayedFrom(old(store.keys)[KeyOf(c, text)]) && store.Contents() == old(store.Contents())
    ensures KeyOf(c, text) !in old(store.keys) ==>
      && answer == AnswerAlone(old(store.Contents()), c, text, now, linkFils)
      && store.Contents()
         == if answer.BookedNow? then Confirm(old(store.Contents()), RequestOf(c, text), now) else old(store.Contents())
  {
    var seen := LookUpStore(store, KeyOf(c, text));
    if seen.Some? { return ReplayedFrom(seen.value); }
    var read := ReadHold(store, c, linkFils);
    if read.Done? { return read.answer; }
    answer := ConfirmInStore(store, RequestOf(c, text), now);
  }

  lemma HasVisitRow(d: Diary, hold: Id)
    ensures VisitRowsOf(d.rows, hold) == {} <==> !HoldHasPerson(d, hold)
  {
    if i :| HoldsPerson(d, hold, i) { assert i in VisitRowsOf(d.rows, hold); }
    if i :| i in VisitRowsOf(d.rows, hold) { assert HoldsPerson(d, hold, i); }
  }

  /** Run alone, it is the four steps of a call with nobody between them. */
  lemma AloneIsFourSteps(
      w: World, calls: seq<Call>, text: Id -> string, units: Units, i: nat, now: int, linkFils: int)
    requires At(w, calls, i, Waiting) && KeyOf(calls[i], text) !in w.diary.keys
    ensures var after :=
        Schedule(w, calls, text, [Look(i), Read(i, linkFils), LookAgain(i), Transact(i, now)], units);
      var answer := AnswerAlone(w.diary, calls[i], text, now, linkFils);
      && At(after, calls, i, Done(answer))
      && after.diary == if answer.BookedNow? then Confirm(w.diary, RequestOf(calls[i], text), now) else w.diary
  {
    var e := [Look(i), Read(i, linkFils), LookAgain(i), Transact(i, now)];
    var looked := Next(w, calls, text, e[0], units);
    var read := Next(looked, calls, text, e[1], units);
    var sought := Next(read, calls, text, e[2], units);
    var done := Next(sought, calls, text, e[3], units);
    assert e[1..][0] == e[1] && e[1..][1..] == e[2..] && e[2..][0] == e[2] && e[2..][1..] == e[3..];
    assert e[3..][0] == e[3] && e[3..][1..] == [];
    assert Schedule(done, calls, text, [], units) == done;
    assert Schedule(w, calls, text, e, units) == Schedule(looked, calls, text, e[1..], units);
    assert Schedule(looked, calls, text, e[1..], units) == Schedule(read, calls, text, e[2..], units);
    assert Schedule(read, calls, text, e[2..], units) == Schedule(sought, calls, text, e[3..], units) == done;
  }
}
