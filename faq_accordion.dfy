/**
 * `FAQAccordion`: the set of open entries and the toggle that opens or closes
 * one entry. The set is a value, so the copy the toggle takes is never the
 * set the previous state holds.
 */
module FaqAccordion {
  import opened Wrappers

  datatype Faq = Faq(question: string, answer: string)

  /** `toggleAccordion(index)` on the open set. */
  function Toggled(open: set<int>, index: int): (r: set<int>)
    ensures index in r <==> index !in open
    ensures forall k :: k != index ==> (k in r <==> k in open)
  {
    if index in open then open - {index} else open + {index}
  }

  /** Toggling the same entry twice restores the open set. */
  lemma ToggleTwice(open: set<int>, index: int)
    ensures Toggled(Toggled(open, index), index) == open
  {
  }

  /** Toggles of different entries commute. */
  lemma TogglesCommute(open: set<int>, i: int, j: int)
    ensures Toggled(Toggled(open, i), j) == Toggled(Toggled(open, j), i)
  {
  }

  /** One rendered entry: its question, whether it is expanded, and its answer when it is. */
  datatype Panel = Panel(question: string, expanded: bool, answer: Option<string>)

  class Accordion {
    var open: set<int>

    /** Initially the first entry is open. */
    constructor ()
      ensures open == {0}
    {
      open := {0};
    }

    method Toggle(index: int)
      modifies this
      ensures open == Toggled(old(open), index)
    {
      var newOpen := open;
      if index in newOpen {
        newOpen := newOpen - {index};
      } else {
        newOpen := newOpen + {index};
      }
      open := newOpen;
    }

    /** The entries as rendered: an answer is shown iff its position is open. */
    function Panels(faqs: seq<Faq>): (ps: seq<Panel>)
      reads this
      ensures |ps| == |faqs|
      ensures forall i :: 0 <= i < |faqs| ==>
        ps[i].question == faqs[i].question
        && (ps[i].expanded <==> i in open)
        && (ps[i].answer.Some? <==> i in open)
        && (ps[i].answer.Some? ==> ps[i].answer.value == faqs[i].answer)
    {
      seq(|faqs|, i requires 0 <= i < |faqs| reads this =>
        Panel(faqs[i].question, i in open, if i in open then Some(faqs[i].answer) else None))
    }
  }
}
