/** Lines of a text. */
module TextLines {

  function LineEnd(text: string): (end: nat)
    ensures end <= |text|
    ensures forall i | 0 <= i < end :: text[i] != '\n'
    ensures end < |text| ==> text[end] == '\n'
  {
    if text == "" || text[0] == '\n' then 0 else 1 + LineEnd(text[1..])
  }

  lemma LineEndExact(text: string, end: nat)
    requires end < |text| && text[end] == '\n' && forall i | 0 <= i < end :: text[i] != '\n'
    ensures LineEnd(text) == end
  {
  }
}
