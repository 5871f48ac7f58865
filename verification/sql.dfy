/** Parameterised SQL statements as the MySQL driver receives them: a text in
    which every `?` is a placeholder, and the array of values bound to the
    placeholders in order. */
module Sql {
  import opened JsValues

  /** The placeholder character of the driver's statement format. */
  const Mark: char := '?'

  /** A statement text with the values to bind to its placeholders. */
  datatype Statement = Statement(text: string, params: seq<JsValue>)

  /** The number of placeholders in a statement text. */
  function Placeholders(s: string): nat {
    if |s| == 0 then 0 else Placeholders(s[..|s| - 1]) + (if s[|s| - 1] == Mark then 1 else 0)
  }

  /** Every placeholder has a bound value and every bound value a placeholder. */
  predicate WellBound(st: Statement) {
    Placeholders(st.text) == |st.params|
  }

  /** The summed length of a list of strings. */
  function TotalLength(parts: seq<string>): nat {
    if |parts| == 0 then 0 else |parts[0]| + TotalLength(parts[1..])
  }

  /** `parts.join(sep)` (Array.prototype.join on an array of strings): the
      result starts with the first part and holds every part plus one
      separator between each neighbouring pair. */
  function Join(parts: seq<string>, sep: string): (r: string)
    ensures |parts| > 0 ==> parts[0] <= r
    ensures |parts| > 0 ==> |r| == TotalLength(parts) + (|parts| - 1) * |sep|
    ensures |parts| == 0 ==> r == ""
    decreases |parts|
  {
    if |parts| == 0 then ""
    else if |parts| == 1 then parts[0]
    else parts[0] + sep + Join(parts[1..], sep)
  }

  /** Pushing a part and then joining extends the joined text by the separator
      and the new part (the first part is joined without a separator). */
  lemma {:induction false} JoinPush(parts: seq<string>, p: string, sep: string)
    ensures Join(parts + [p], sep) == if |parts| == 0 then p else Join(parts, sep) + sep + p
    decreases |parts|
  {
    if |parts| > 1 {
      assert (parts + [p])[1..] == parts[1..] + [p];
      JoinPush(parts[1..], p, sep);
    } else if |parts| == 1 {
      assert (parts + [p])[1..] == [p];
    }
  }

  /** Placeholders add up over concatenation. */
  lemma {:induction false} PlaceholdersAppend(a: string, b: string)
    ensures Placeholders(a + b) == Placeholders(a) + Placeholders(b)
  {
    if b == [] {
      assert a + b == a;
    } else {
      assert (a + b)[..|a + b| - 1] == a + b[..|b| - 1];
      PlaceholdersAppend(a, b[..|b| - 1]);
    }
  }

  /** A text without the placeholder character has no placeholders. */
  lemma {:induction false} UnmarkedHasNoPlaceholders(s: string)
    requires Mark !in s
    ensures Placeholders(s) == 0
  {
    if s != [] {
      assert s[|s| - 1] in s;
      assert forall c :: c in s[..|s| - 1] ==> c in s;
      UnmarkedHasNoPlaceholders(s[..|s| - 1]);
    }
  }

  /** A text that ends in the placeholder character and has no other has exactly one. */
  lemma SingleMark(prefix: string)
    requires Mark !in prefix
    ensures Placeholders(prefix + [Mark]) == 1
  {
    assert (prefix + [Mark])[..|prefix|] == prefix;
    UnmarkedHasNoPlaceholders(prefix);
  }

  /** Joining fragments that each hold one placeholder with a separator that
      holds none gives one placeholder per fragment. */
  lemma {:induction false} JoinPlaceholders(parts: seq<string>, sep: string)
    requires Placeholders(sep) == 0
    requires forall i :: 0 <= i < |parts| ==> Placeholders(parts[i]) == 1
    ensures Placeholders(Join(parts, sep)) == |parts|
  {
    if |parts| > 1 {
      JoinPlaceholders(parts[1..], sep);
      PlaceholdersAppend(parts[0], sep);
      PlaceholdersAppend(parts[0] + sep, Join(parts[1..], sep));
    }
  }
}
