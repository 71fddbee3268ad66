/** The FAQs page: content entries `{q, a}` become accordion entries. */
module FaqsPage {
  import opened Wrappers
  import opened FaqAccordion

  datatype FaqItem = FaqItem(q: Option<string>, a: Option<string>)
  datatype FaqsData = FaqsData(title: Option<string>, intro: Option<string>, faqs: Option<seq<FaqItem>>)

  /** One entry: a missing question or answer becomes the empty string. */
  function ToFaq(f: FaqItem): (r: Faq)
    ensures f.q.Some? ==> r.question == f.q.value
    ensures f.q.None? ==> r.question == ""
    ensures f.a.Some? ==> r.answer == f.a.value
    ensures f.a.None? ==> r.answer == ""
  {
    Faq(f.q.GetOr(""), f.a.GetOr(""))
  }

  /** The accordion entries: none without a list, otherwise one per item, in order. */
  function Faqs(data: FaqsData): (r: seq<Faq>)
    ensures data.faqs.None? ==> r == []
    ensures data.faqs.Some? ==>
      (|r| == |data.faqs.value| && forall i :: 0 <= i < |r| ==> r[i] == ToFaq(data.faqs.value[i]))
  {
    var items := data.faqs.GetOr([]);
    seq(|items|, i requires 0 <= i < |items| => ToFaq(items[i]))
  }

  /** The heading: the data's title, or `FAQs`. */
  function Heading(data: FaqsData): (h: string)
    ensures data.title.Some? ==> h == data.title.value
    ensures data.title.None? ==> h == "FAQs"
  {
    data.title.GetOr("FAQs")
  }
}
