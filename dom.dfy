/** The parsed document as the extractors see it. The CSS selector engine is
    foreign: a `Query` maps a selector to its matches in document order. */
module Dom {
  import opened Outcomes
  import opened Strings

  /** One matched element: its attributes, `$(el).text()`, and `$(el).parent().attr('class')`. */
  datatype Element = Element(attrs: map<string, string>, text: string, parentClass: string)

  type Query = string -> seq<Element>

  /** `$(el).attr(name) || ''`: a missing attribute reads as "". */
  function Attr(e: Element, name: string): string {
    if name in e.attrs then e.attrs[name] else ""
  }

  /** `$(sel).first()`, when it has a match. */
  function FirstMatch(query: Query, sel: string): (r: Option<Element>)
    ensures r.Some? <==> |query(sel)| > 0
    ensures r.Some? ==> r.value == query(sel)[0]
  {
    if |query(sel)| > 0 then Some(query(sel)[0]) else None
  }

  /** `$(sel).attr(name) || ''`: the attribute of the first match. */
  function FirstAttr(query: Query, sel: string, name: string): string {
    match FirstMatch(query, sel)
    case Some(e) => Attr(e, name)
    case None => ""
  }

  /** `$(sel).first().text()`. */
  function FirstText(query: Query, sel: string): string {
    match FirstMatch(query, sel)
    case Some(e) => e.text
    case None => ""
  }

  /** `$(sel).text()`: the texts of all matches, concatenated. */
  function AllText(query: Query, sel: string): string {
    ConcatTexts(query(sel))
  }

  function ConcatTexts(es: seq<Element>): string {
    if es == [] then "" else es[0].text + ConcatTexts(es[1..])
  }

  /** "The first selector that produces a candidate wins": `r` is the candidate of
      the earliest selector that has one, and `None` when no selector has one.
      A selector with matches but no acceptable candidate does not stop the search. */
  ghost predicate IsFirstPick<T>(sels: seq<string>, pick: string -> Option<T>, r: Option<T>) {
    match r
    case None => forall i :: 0 <= i < |sels| ==> pick(sels[i]).None?
    case Some(v) =>
      exists i :: 0 <= i < |sels| && pick(sels[i]) == Some(v)
        && forall j :: 0 <= j < i ==> pick(sels[j]).None?
  }

  /** The same cascade written as a recursive function. */
  function FirstPick<T>(sels: seq<string>, pick: string -> Option<T>): Option<T> {
    if sels == [] then None
    else if pick(sels[0]).Some? then pick(sels[0])
    else FirstPick(sels[1..], pick)
  }

  /** A successful cascade answers with the pick of one of its selectors. */
  lemma {:induction false} FirstPickSource<T>(sels: seq<string>, pick: string -> Option<T>) returns (k: nat)
    requires FirstPick(sels, pick).Some?
    ensures k < |sels| && pick(sels[k]) == FirstPick(sels, pick)
  {
    if pick(sels[0]).Some? {
      k := 0;
    } else {
      var k' := FirstPickSource(sels[1..], pick);
      k := k' + 1;
    }
  }

  /** The cascade has exactly one outcome, and the recursive function computes it. */
  lemma {:induction false} FirstPickIsTheFirstPick<T>(sels: seq<string>, pick: string -> Option<T>, r: Option<T>)
    ensures IsFirstPick(sels, pick, r) <==> r == FirstPick(sels, pick)
  {
    if sels == [] {
    } else if pick(sels[0]).Some? {
      if IsFirstPick(sels, pick, r) && r.Some? {
        var i :| 0 <= i < |sels| && pick(sels[i]) == r
          && forall j :: 0 <= j < i ==> pick(sels[j]).None?;
        assert i == 0;
      }
      if r == FirstPick(sels, pick) {
        assert pick(sels[0]) == r;
      }
    } else {
      FirstPickIsTheFirstPick(sels[1..], pick, r);
      var tail := sels[1..];
      if IsFirstPick(sels, pick, r) {
        match r
        case None =>
          assert forall i :: 0 <= i < |tail| ==> pick(tail[i]).None? by {
            forall i | 0 <= i < |tail| ensures pick(tail[i]).None? {
              assert tail[i] == sels[i + 1];
            }
          }
        case Some(v) =>
          var i :| 0 <= i < |sels| && pick(sels[i]) == Some(v)
            && forall j :: 0 <= j < i ==> pick(sels[j]).None?;
          assert i > 0;
          assert pick(tail[i - 1]) == Some(v);
          assert forall j :: 0 <= j < i - 1 ==> pick(tail[j]).None? by {
            forall j | 0 <= j < i - 1 ensures pick(tail[j]).None? {
              assert tail[j] == sels[j + 1];
            }
          }
      }
      if r == FirstPick(sels, pick) {
        assert IsFirstPick(tail, pick, r);
        match r
        case None =>
          forall i | 0 <= i < |sels| ensures pick(sels[i]).None? {
            if i > 0 { assert sels[i] == tail[i - 1]; }
          }
        case Some(v) =>
          var i :| 0 <= i < |tail| && pick(tail[i]) == Some(v)
            && forall j :: 0 <= j < i ==> pick(tail[j]).None?;
          assert pick(sels[i + 1]) == Some(v);
          forall j | 0 <= j < i + 1 ensures pick(sels[j]).None? {
            if j > 0 { assert sels[j] == tail[j - 1]; }
          }
      }
    }
  }
}
