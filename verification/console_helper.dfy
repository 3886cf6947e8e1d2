/**
 * The one piece of the console helper with logic of its own: `padCenter`, which centres a
 * label (a seat's `[R1-2]`, say) in a fixed-width cell of the seat map.
 */
module ConsoleHelper {
  import opened Wrappers

  /** Every character of `s` is a space. */
  predicate AllSpaces(s: string) {
    forall i :: 0 <= i < |s| ==> s[i] == ' '
  }

  /**
   * `padCenter`: a null string comes back null and a string at least `width` long comes
   * back as it is; otherwise the result is exactly `width` long, with half the slack
   * (rounded down) as spaces before the text and the rest, never less, as spaces after it.
   */
  method PadCenter(s: Option<string>, width: int) returns (r: Option<string>)
    ensures s.None? ==> r.None?
    ensures s.Some? && width <= |s.value| ==> r == s
    ensures s.Some? && width > |s.value| ==>
              var lead := (width - |s.value|) / 2;
              r.Some? && |r.value| == width &&
              r.value[lead..lead + |s.value|] == s.value &&
              AllSpaces(r.value[..lead]) && AllSpaces(r.value[lead + |s.value|..]) &&
              |r.value| - (lead + |s.value|) >= lead
  {
    if s.None? || width <= |s.value| {
      return s;
    }
    var text := s.value;
    var lead := (width - |text|) / 2;
    var sb := "";
    for i := 0 to lead
      invariant |sb| == i && AllSpaces(sb)
    {
      sb := sb + " ";
    }
    sb := sb + text;
    assert sb[lead..lead + |text|] == text;
    while |sb| < width
      invariant lead + |text| <= |sb| <= width
      invariant AllSpaces(sb[..lead]) && sb[lead..lead + |text|] == text
      invariant AllSpaces(sb[lead + |text|..])
      decreases width - |sb|
    {
      sb := sb + " ";
    }
    return Some(sb);
  }
}
