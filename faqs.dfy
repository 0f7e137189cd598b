/**
 * Questions and answers about a thing (`core/models/faq.py`).
 */
module Faqs {

  datatype Faq = Faq(
    code: string,
    thingCode: string,
    created: int,
    questioner: string,
    question: string,
    answer: string,
    visible: bool)

  /** A new question: visible to everyone who sees the thing and not yet answered. */
  function NewFaq(code: string, thingCode: string, now: int, questioner: string, question: string): (f: Faq)
    ensures f.code == code && f.thingCode == thingCode && f.questioner == questioner && f.question == question
    ensures f.visible && f.answer == "" && !HasAnswer(f)
  {
    Faq(code, thingCode, now, questioner, question, "", true)
  }

  /** `has_answer()`: the answer text is not empty. */
  predicate HasAnswer(f: Faq) { f.answer != "" }

  /** `answer(text)`: sets the answer and changes no other field. */
  function Answered(f: Faq, text: string): (r: Faq)
    ensures r.answer == text
    ensures r == f.(answer := text)
    ensures HasAnswer(r) <==> text != ""
  {
    f.(answer := text)
  }

  /** Answering with non-empty text makes a question answered, and a later answer replaces an earlier one. */
  lemma AnsweringAnswers(f: Faq, text: string, text2: string)
    requires text != ""
    ensures HasAnswer(Answered(f, text))
    ensures Answered(Answered(f, text), text2) == Answered(f, text2)
  {
  }

  /** The FAQ table, keyed by FAQ code. */
  class FaqTable {
    var rows: map<string, Faq>

    ghost predicate Valid()
      reads this
    {
      forall k :: k in rows ==> rows[k].code == k
    }

    constructor ()
      ensures Valid() && rows == map[]
    {
      rows := map[];
    }

    /** Inserts a new FAQ; a code already in use violates the primary key and nothing is written. */
    method Insert(f: Faq) returns (ok: bool)
      requires Valid()
      modifies this
      ensures Valid()
      ensures ok <==> f.code !in old(rows)
      ensures rows == if ok then old(rows)[f.code := f] else old(rows)
    {
      ok := f.code !in rows;
      if ok {
        rows := rows[f.code := f];
      }
    }

    /** `faq.answer(text)` */
    method Answer(code: string, text: string)
      requires Valid() && code in rows
      modifies this
      ensures Valid() && rows == old(rows)[code := Answered(old(rows)[code], text)]
    {
      var f := rows[code];
      f := f.(answer := text);
      rows := rows[code := f];
    }

    /** Sets `faq_is_visible`. */
    method SetVisible(code: string, visible: bool)
      requires Valid() && code in rows
      modifies this
      ensures Valid() && rows == old(rows)[code := old(rows)[code].(visible := visible)]
    {
      rows := rows[code := rows[code].(visible := visible)];
    }
  }
}
