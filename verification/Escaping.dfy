/** Escaping `$` in what a bundle renders, and the two readers that undo it. */
module Escaping {
  datatype Value =
    | Text(text: string)
    | List(items: seq<Value>)
    | Dict(entries: map<string, Value>)
    | Plain(number: int)            // a number, a boolean or nothing

  /** Every `$` doubled. */
  function Doubled(s: string): string
  {
    if s == "" then "" else (if s[0] == '$' then "$$" else [s[0]]) + Doubled(s[1..])
  }

  /** A value with every text in it escaped. Keys stay as they are. */
  function Literal(v: Value): Value
  {
    match v
    case Text(s) => Text(Doubled(s))
    case List(items) => List(seq(|items|, i requires 0 <= i < |items| => Literal(items[i])))
    case Dict(entries) => Dict(map k | k in entries :: Literal(entries[k]))
    case Plain(_) => v
  }

  /** Compose's reading: `$$` is a `$`, and any other `$` begins a substitution, whatever that gives. */
  function Interpolated(s: string, substituted: string -> string): string
  {
    if s == "" then ""
    else if s[0] != '$' then [s[0]] + Interpolated(s[1..], substituted)
    else if |s| > 1 && s[1] == '$' then "$" + Interpolated(s[2..], substituted)
    else substituted(s)
  }

  function Composed(v: Value, substituted: string -> string): Value
  {
    match v
    case Text(s) => Text(Interpolated(s, substituted))
    case List(items) => List(seq(|items|, i requires 0 <= i < |items| => Composed(items[i], substituted)))
    case Dict(entries) => Dict(map k | k in entries :: Composed(entries[k], substituted))
    case Plain(_) => v
  }

  /** Replacing `$$` by `$` from the left, as diagnostics show an environment. */
  function Undoubled(s: string): string
  {
    if |s| < 2 then s
    else if s[0] == '$' && s[1] == '$' then "$" + Undoubled(s[2..])
    else [s[0]] + Undoubled(s[1..])
  }

  lemma {:induction false} TextReadsBack(s: string, substituted: string -> string)
    ensures Interpolated(Doubled(s), substituted) == s && Undoubled(Doubled(s)) == s
  {
    if s != "" {
      TextReadsBack(s[1..], substituted);
      var d, rest := Doubled(s), Doubled(s[1..]);
      if s[0] == '$' {
        assert d[2..] == rest;
      } else {
        assert d[1..] == rest;
      }
      assert s == [s[0]] + s[1..];
    }
  }

  /** Compose reads back exactly what was rendered, whatever it would substitute: nothing is. */
  lemma {:induction false} ComposeReadsBack(v: Value, substituted: string -> string)
    ensures Composed(Literal(v), substituted) == v
  {
    match v
    case Text(s) => TextReadsBack(s, substituted);
    case List(items) =>
      forall i | 0 <= i < |items| ensures Composed(Literal(items[i]), substituted) == items[i] {
        ComposeReadsBack(items[i], substituted);
      }
      assert Composed(Literal(v), substituted).items == items;
    case Dict(entries) =>
      forall k | k in entries ensures Composed(Literal(entries[k]), substituted) == entries[k] {
        ComposeReadsBack(entries[k], substituted);
      }
      assert Composed(Literal(v), substituted).entries == entries;
    case Plain(_) =>
  }

  /** A `$` that begins a substitution: one that no `$` pairs with. */
  predicate Substitutes(s: string)
  {
    s != "" &&
    if s[0] != '$' then Substitutes(s[1..])
    else if |s| > 1 && s[1] == '$' then Substitutes(s[2..])
    else true
  }

  /** The two readers agree on every text that substitutes nothing, and an escaped text never does. */
  lemma {:induction false} ReadersAgree(s: string, substituted: string -> string)
    ensures !Substitutes(s) ==> Interpolated(s, substituted) == Undoubled(s)
    ensures !Substitutes(Doubled(s))
  {
    if s != "" {
      ReadersAgree(s[1..], substituted);
      var d := Doubled(s);
      assert (if s[0] == '$' then d[2..] else d[1..]) == Doubled(s[1..]);
      if |s| > 1 { ReadersAgree(s[2..], substituted); }
    }
  }
}
