/**
 * The FAQ endpoints (`core/views/faq.py`): listing a thing's questions,
 * asking one, reading one, answering one, and hiding or showing one.
 * Each view is a function of a `State`; the three that write also have a
 * method over the tables proved to agree with it.
 */
module FaqViews {
  import opened Wrappers
  import opened Validators
  import opened Things
  import opened Faqs
  import opened Database

  /** `FAQCreateSerializer.faq_question` */
  const QuestionMaxLength: nat := 64
  /** `FAQAnswerSerializer.faq_answer` */
  const AnswerMaxLength: nat := 256

  /**
   * A required `CharField(max_length=n)`: the input trimmed of whitespace at
   * both ends, refused (`None`) when missing, blank after trimming, longer
   * than `n`, or holding a NUL character.
   */
  function CharFieldValue(data: Option<string>, maxLength: nat): (r: Option<string>)
    ensures r.None? <==>
      data.None? || Trim(data.value) == "" || |Trim(data.value)| > maxLength || '\0' in Trim(data.value)
    ensures r.Some? ==> r.value == Trim(data.value) && r.value != "" && |r.value| <= maxLength
    ensures r.Some? ==> !IsWhitespace(r.value[0]) && !IsWhitespace(r.value[|r.value| - 1]) && '\0' !in r.value
  {
    if data.None? then None else CharFieldText(data.value, maxLength, false)
  }

  /** A question of nothing but no-break spaces is blank, and so is refused. */
  lemma NoBreakSpaceQuestionRefused()
    ensures CharFieldValue(Some("\U{a0}"), QuestionMaxLength) == None
  {
    var s := "\U{a0}";
    assert IsWhitespace(s[0]) && s[1..] == [];
    assert TrimStart(s) == TrimStart([]) == [];
  }

  /** A question holding a NUL character is refused, wherever the NUL sits. */
  lemma NulQuestionRefused()
    ensures CharFieldValue(Some("a\0b"), QuestionMaxLength) == None
  {
    var s := "a\0b";
    assert !IsWhitespace(s[0]) && !IsWhitespace(s[2]);
    assert TrimStart(s) == s && TrimEnd(s) == s;
    assert s[1] == '\0';
  }

  /** Whether `caller` may see the FAQ `f` of thing `t` when it is hidden: the owner and the one who asked. */
  predicate SeesHidden(t: Thing, f: Faq, caller: string) {
    Things.IsOwner(t, caller) || f.questioner == caller
  }

  // ---------------------------------------------------------------- listing

  /**
   * `ThingFAQListView.get`: 404 for a missing thing, 403 for a caller who may
   * not see it; otherwise the thing's FAQs, all of them for its owner and the
   * visible ones for anyone else (the query has no order, so a set).
   */
  function ListFaqs(st: State, thingCode: string, caller: string): (r: (Status, set<Faq>))
    ensures r.0 == NotFound <==> thingCode !in st.things
    ensures r.0 == Forbidden <==> thingCode in st.things && !Things.CanView(st.things[thingCode], st.collections, caller)
    ensures r.0 in {Ok, NotFound, Forbidden}
    ensures r.0 != Ok ==> r.1 == {}
    ensures forall f :: f in r.1 ==> f in st.faqs.Values && f.thingCode == thingCode
  {
    if thingCode !in st.things then (NotFound, {})
    else
      var t := st.things[thingCode];
      if !Things.CanView(t, st.collections, caller) then (Forbidden, {})
      else (Ok, set k | k in st.faqs && st.faqs[k].thingCode == thingCode && (Things.IsOwner(t, caller) || st.faqs[k].visible) :: st.faqs[k])
  }

  /**
   * What each caller is shown: an FAQ of the thing is listed for its owner
   * always and for anyone else exactly when it is visible, so the owner's list
   * holds every other caller's list, and what only the owner sees is hidden.
   */
  lemma {:induction false} ListShowsVisibleFaqs(st: State, thingCode: string, owner: string, guest: string, f: Faq)
    requires thingCode in st.things && st.things[thingCode].owner == owner && guest != owner
    requires ListFaqs(st, thingCode, guest).0 == Ok
    requires f in st.faqs.Values && f.thingCode == thingCode
    ensures ListFaqs(st, thingCode, owner).0 == Ok
    ensures f in ListFaqs(st, thingCode, owner).1
    ensures f in ListFaqs(st, thingCode, guest).1 <==> f.visible
  {
    var k :| k in st.faqs && st.faqs[k] == f;
    assert f == st.faqs[k];
  }

  // ---------------------------------------------------------------- reading one

  /**
   * `FAQDetailView.get`: 404 for a missing FAQ or a missing thing, 403 for a
   * caller who may not see the thing, 404 for a hidden FAQ unless the caller
   * owns the thing or asked the question; otherwise the FAQ.
   */
  function GetFaq(st: State, faqCode: string, caller: string): (r: (Status, Option<Faq>))
    ensures r.0 in {Ok, NotFound, Forbidden}
    ensures r.0 == Ok <==> r.1.Some?
    ensures r.1.Some? ==> faqCode in st.faqs && r.1.value == st.faqs[faqCode]
    ensures r.0 == Forbidden <==> (
      && faqCode in st.faqs && st.faqs[faqCode].thingCode in st.things
      && !Things.CanView(st.things[st.faqs[faqCode].thingCode], st.collections, caller))
    ensures r.0 == Ok ==> (
      && r.1.value.thingCode in st.things
      && (r.1.value.visible || SeesHidden(st.things[r.1.value.thingCode], r.1.value, caller)))
  {
    if faqCode !in st.faqs then (NotFound, None)
    else
      var f := st.faqs[faqCode];
      if f.thingCode !in st.things then (NotFound, None)
      else
        var t := st.things[f.thingCode];
        if !Things.CanView(t, st.collections, caller) then (Forbidden, None)
        else if !f.visible && !SeesHidden(t, f, caller) then (NotFound, None)
        else (Ok, Some(f))
  }

  /**
   * To a caller who may neither see it hidden nor is kept out of the thing, a
   * hidden FAQ answers exactly as if it did not exist.
   */
  lemma {:induction false} HiddenFaqLooksMissing(st: State, faqCode: string, caller: string)
    requires faqCode in st.faqs && !st.faqs[faqCode].visible
    requires st.faqs[faqCode].thingCode in st.things
    requires !SeesHidden(st.things[st.faqs[faqCode].thingCode], st.faqs[faqCode], caller)
    requires Things.CanView(st.things[st.faqs[faqCode].thingCode], st.collections, caller)
    ensures GetFaq(st, faqCode, caller) == GetFaq(st.(faqs := st.faqs - {faqCode}), faqCode, caller) == (NotFound, None)
  {
    assert faqCode !in (st.faqs - {faqCode});
  }

  /** Every FAQ a caller is listed can also be opened by that caller, and shows the same row. */
  lemma {:induction false} ListedFaqOpens(st: State, thingCode: string, caller: string, f: Faq)
    requires Keyed(st)
    requires f in ListFaqs(st, thingCode, caller).1
    ensures GetFaq(st, f.code, caller) == (Ok, Some(f))
  {
    var t := st.things[thingCode];
    var k :| k in st.faqs && st.faqs[k].thingCode == thingCode && (Things.IsOwner(t, caller) || st.faqs[k].visible) && st.faqs[k] == f;
    assert k == f.code;
  }

  // ---------------------------------------------------------------- asking

  /**
   * `ThingFAQListView.post`, with `code` the drawn FAQ code and `now` the
   * clock: 404 for a missing thing, 400 for its owner, 403 for a caller who
   * may not see it, 400 for a missing, blank or over-long question, 500 when
   * the drawn code is taken; otherwise a new visible, unanswered FAQ by the
   * caller, listed on the thing, and 201.
   */
  function CreateFaq(st: State, thingCode: string, caller: string, question: Option<string>, code: string, now: int): (r: (Status, State))
    ensures r.0 in {Created, NotFound, BadRequest, Forbidden, ServerError}
    ensures r.0 == NotFound <==> thingCode !in st.things
    ensures r.0 == Forbidden <==> (
      && thingCode in st.things && caller != st.things[thingCode].owner
      && !Things.CanView(st.things[thingCode], st.collections, caller))
    ensures r.0 != Created ==> r.1 == st
    ensures r.0 == Created <==> (
      && thingCode in st.things && Things.CanView(st.things[thingCode], st.collections, caller)
      && caller != st.things[thingCode].owner && CharFieldValue(question, QuestionMaxLength).Some? && code !in st.faqs)
    ensures r.0 == Created ==> r.1 == st.(
      faqs := st.faqs[code := NewFaq(code, thingCode, now, caller, CharFieldValue(question, QuestionMaxLength).value)],
      things := st.things[thingCode := WithFaq(st.things[thingCode], code)])
  {
    if thingCode !in st.things then (NotFound, st)
    else
      var t := st.things[thingCode];
      if Things.IsOwner(t, caller) then (BadRequest, st)
      else if !Things.CanView(t, st.collections, caller) then (Forbidden, st)
      else
        var q := CharFieldValue(question, QuestionMaxLength);
        if q.None? then (BadRequest, st)
        else if code in st.faqs then (ServerError, st)
        else (Created, st.(faqs := st.faqs[code := NewFaq(code, thingCode, now, caller, q.value)],
                           things := st.things[thingCode := WithFaq(t, code)]))
  }

  /**
   * A question, once asked, is on the thing's FAQ list, keeps the tables
   * keyed, and is listed both for the thing's owner and for the one who asked.
   */
  lemma {:induction false} AskedQuestionIsListed(st: State, thingCode: string, caller: string, question: Option<string>, code: string, now: int)
    requires Keyed(st)
    requires CreateFaq(st, thingCode, caller, question, code, now).0 == Created
    ensures var st' := CreateFaq(st, thingCode, caller, question, code, now).1;
      && Keyed(st')
      && code in st'.things[thingCode].faq
      && ListFaqs(st', thingCode, caller).0 == Ok
      && st'.faqs[code] in ListFaqs(st', thingCode, caller).1
      && st'.faqs[code] in ListFaqs(st', thingCode, st.things[thingCode].owner).1
  {
    var t := st.things[thingCode];
    var f := NewFaq(code, thingCode, now, caller, CharFieldValue(question, QuestionMaxLength).value);
    var t' := WithFaq(t, code);
    var st' := st.(faqs := st.faqs[code := f], things := st.things[thingCode := t']);
    assert CreateFaq(st, thingCode, caller, question, code, now).1 == st';
    assert t'.code == t.code && t'.owner == t.owner && t'.available == t.available;
    assert st'.faqs[code] == f;
    FaqWriteKeepsKeyed(st, t', f);
    VisibleFaqListed(st', thingCode, caller, f);
    VisibleFaqListed(st', thingCode, t.owner, f);
  }

  /** Storing a FAQ and rewriting a thing, each under its own code, keeps every table keyed. */
  lemma FaqWriteKeepsKeyed(st: State, t: Thing, f: Faq)
    requires Keyed(st)
    ensures Keyed(st.(faqs := st.faqs[f.code := f], things := st.things[t.code := t]))
  {
  }

  /** A visible FAQ of a thing is on the list of everyone who may see the thing. */
  lemma {:induction false} VisibleFaqListed(st: State, thingCode: string, caller: string, f: Faq)
    requires thingCode in st.things && Things.CanView(st.things[thingCode], st.collections, caller)
    requires f.code in st.faqs && st.faqs[f.code] == f && f.thingCode == thingCode && f.visible
    ensures ListFaqs(st, thingCode, caller).0 == Ok && f in ListFaqs(st, thingCode, caller).1
  {
  }

  method CreateFaqView(db: Db, thingCode: string, caller: string, question: Option<string>, code: string, now: int) returns (status: Status)
    requires db.Valid()
    modifies db.faqs, db.things
    ensures db.Valid()
    ensures (status, db.Snapshot()) == CreateFaq(old(db.Snapshot()), thingCode, caller, question, code, now)
  {
    if thingCode !in db.things.rows {
      return NotFound;
    }
    var t := db.things.rows[thingCode];
    if Things.IsOwner(t, caller) {
      return BadRequest;
    }
    if !Things.CanView(t, db.collections.rows, caller) {
      return Forbidden;
    }
    var q := CharFieldValue(question, QuestionMaxLength);
    if q.None? {
      return BadRequest;
    }
    ghost var st0 := db.Snapshot();
    var f := NewFaq(code, thingCode, now, caller, q.value);
    var inserted := db.faqs.Insert(f);
    if !inserted {
      assert db.Snapshot() == st0;
      return ServerError;
    }
    db.things.AddFaq(thingCode, code);
    assert db.faqs.rows == st0.faqs[code := f];
    assert db.things.rows == st0.things[thingCode := WithFaq(t, code)];
    status := Created;
  }

  // ---------------------------------------------------------------- answering

  /**
   * `FAQAnswerView.post`: 404 for a missing FAQ or thing, 403 for anyone but
   * the thing's owner, 400 for a missing, blank or over-long answer;
   * otherwise the answer is stored and 200.
   */
  function AnswerFaq(st: State, faqCode: string, caller: string, answer: Option<string>): (r: (Status, State))
    ensures r.0 in {Ok, NotFound, Forbidden, BadRequest}
    ensures r.0 == NotFound <==> faqCode !in st.faqs || st.faqs[faqCode].thingCode !in st.things
    ensures r.0 == Forbidden <==> (
      && faqCode in st.faqs && st.faqs[faqCode].thingCode in st.things
      && st.things[st.faqs[faqCode].thingCode].owner != caller)
    ensures r.0 != Ok ==> r.1 == st
    ensures r.0 == Ok ==> (
      && CharFieldValue(answer, AnswerMaxLength).Some?
      && r.1 == st.(faqs := st.faqs[faqCode := Answered(st.faqs[faqCode], CharFieldValue(answer, AnswerMaxLength).value)]))
  {
    if faqCode !in st.faqs then (NotFound, st)
    else
      var f := st.faqs[faqCode];
      if f.thingCode !in st.things then (NotFound, st)
      else if !Things.IsOwner(st.things[f.thingCode], caller) then (Forbidden, st)
      else
        var a := CharFieldValue(answer, AnswerMaxLength);
        if a.None? then (BadRequest, st)
        else (Ok, st.(faqs := st.faqs[faqCode := Answered(f, a.value)]))
  }

  /** Only the owner answers, and an accepted answer marks the question answered without touching its question, asker or visibility. */
  lemma {:induction false} AnswerMarksAnswered(st: State, faqCode: string, caller: string, answer: Option<string>)
    requires AnswerFaq(st, faqCode, caller, answer).0 == Ok
    ensures var st' := AnswerFaq(st, faqCode, caller, answer).1;
      && caller == st.things[st.faqs[faqCode].thingCode].owner
      && HasAnswer(st'.faqs[faqCode])
      && st'.faqs[faqCode].question == st.faqs[faqCode].question
      && st'.faqs[faqCode].questioner == st.faqs[faqCode].questioner
      && st'.faqs[faqCode].visible == st.faqs[faqCode].visible
  {
    var a := CharFieldValue(answer, AnswerMaxLength);
    assert a.Some? && a.value != "";
  }

  method AnswerFaqView(db: Db, faqCode: string, caller: string, answer: Option<string>) returns (status: Status)
    requires db.Valid()
    modifies db.faqs
    ensures db.Valid()
    ensures (status, db.Snapshot()) == AnswerFaq(old(db.Snapshot()), faqCode, caller, answer)
  {
    if faqCode !in db.faqs.rows {
      return NotFound;
    }
    var f := db.faqs.rows[faqCode];
    if f.thingCode !in db.things.rows {
      return NotFound;
    }
    if !Things.IsOwner(db.things.rows[f.thingCode], caller) {
      return Forbidden;
    }
    var a := CharFieldValue(answer, AnswerMaxLength);
    if a.None? {
      return BadRequest;
    }
    db.faqs.Answer(faqCode, a.value);
    status := Ok;
  }

  // ---------------------------------------------------------------- hiding and showing

  /**
   * `FAQVisibilityView.post`: 404 when the FAQ or its thing is missing, 403
   * for anyone but the thing's owner, then "hide" clears and "show" sets the
   * visibility flag; any other action is 400 (checked only after the owner).
   */
  function SetVisibility(st: State, faqCode: string, caller: string, action: string): (r: (Status, State))
    ensures r.0 in {Ok, NotFound, Forbidden, BadRequest}
    ensures r.0 == NotFound <==> faqCode !in st.faqs || st.faqs[faqCode].thingCode !in st.things
    ensures r.0 == Forbidden <==> (
      && faqCode in st.faqs && st.faqs[faqCode].thingCode in st.things
      && st.things[st.faqs[faqCode].thingCode].owner != caller)
    ensures r.0 == BadRequest <==> r.0 !in {NotFound, Forbidden} && action != "hide" && action != "show"
    ensures r.0 != Ok ==> r.1 == st
    ensures r.0 == Ok ==> r.1 == st.(faqs := st.faqs[faqCode := st.faqs[faqCode].(visible := action == "show")])
  {
    if faqCode !in st.faqs || st.faqs[faqCode].thingCode !in st.things then (NotFound, st)
    else
      var f := st.faqs[faqCode];
      if !Things.IsOwner(st.things[f.thingCode], caller) then (Forbidden, st)
      else if action == "hide" then (Ok, st.(faqs := st.faqs[faqCode := f.(visible := false)]))
      else if action == "show" then (Ok, st.(faqs := st.faqs[faqCode := f.(visible := true)]))
      else (BadRequest, st)
  }

  /**
   * Hiding takes a question off every list but its owner's and keeps it from
   * everyone but the owner and the one who asked; showing it again restores
   * the tables as they were before it was hidden.
   */
  lemma {:induction false} HideThenShow(st: State, faqCode: string, caller: string, other: string)
    requires Keyed(st)
    requires SetVisibility(st, faqCode, caller, "hide").0 == Ok
    requires other != caller
    ensures var hidden := SetVisibility(st, faqCode, caller, "hide").1;
      && hidden.faqs[faqCode] !in ListFaqs(hidden, st.faqs[faqCode].thingCode, other).1
      && (other != st.faqs[faqCode].questioner ==> GetFaq(hidden, faqCode, other).0 != Ok)
      && SetVisibility(hidden, faqCode, caller, "show").0 == Ok
      && (st.faqs[faqCode].visible ==> SetVisibility(hidden, faqCode, caller, "show").1 == st)
  {
    var hidden := SetVisibility(st, faqCode, caller, "hide").1;
    var f := hidden.faqs[faqCode];
    assert !f.visible;
    var thingCode := st.faqs[faqCode].thingCode;
    assert hidden.things == st.things;
    assert thingCode in hidden.things && !Things.IsOwner(hidden.things[thingCode], other);
    if st.faqs[faqCode].visible {
      assert st.faqs[faqCode := st.faqs[faqCode]] == st.faqs;
    }
  }

  method SetVisibilityView(db: Db, faqCode: string, caller: string, action: string) returns (status: Status)
    requires db.Valid()
    modifies db.faqs
    ensures db.Valid()
    ensures (status, db.Snapshot()) == SetVisibility(old(db.Snapshot()), faqCode, caller, action)
  {
    if faqCode !in db.faqs.rows || db.faqs.rows[faqCode].thingCode !in db.things.rows {
      return NotFound;
    }
    var f := db.faqs.rows[faqCode];
    if !Things.IsOwner(db.things.rows[f.thingCode], caller) {
      return Forbidden;
    }
    if action == "hide" {
      db.faqs.SetVisible(faqCode, false);
      status := Ok;
    } else if action == "show" {
      db.faqs.SetVisible(faqCode, true);
      status := Ok;
    } else {
      status := BadRequest;
    }
  }
}
