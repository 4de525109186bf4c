// First occurrence of a pattern in a text.
module TextSearch {
  import opened Wrappers

  predicate OccursAt(text: string, pat: string, i: nat) {
    i + |pat| <= |text| && text[i..i + |pat|] == pat
  }

  predicate StartsWith(text: string, pat: string) {
    OccursAt(text, pat, 0)
  }

  function FindFrom(text: string, pat: string, i: nat): (r: Option<nat>)
    ensures r.Some? ==> i <= r.value && OccursAt(text, pat, r.value)
    ensures r.Some? ==> forall j | i <= j < r.value :: !OccursAt(text, pat, j)
    ensures r.None? ==> forall j | i <= j :: !OccursAt(text, pat, j)
    decreases |text| - i
  {
    if i + |pat| > |text| then None
    else if OccursAt(text, pat, i) then Some(i)
    else FindFrom(text, pat, i + 1)
  }

  function Find(text: string, pat: string): Option<nat> {
    FindFrom(text, pat, 0)
  }

  predicate Contains(text: string, pat: string) {
    Find(text, pat).Some?
  }
}
