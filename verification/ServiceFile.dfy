/** The libpq service file printed for a database connection URI, and read back. The URI
    comes split into its parts; percent-decoding and what counts as white space are
    parameters. */
module ServiceFile {
  import opened Options

  datatype Uri = Uri(scheme: string, host: string, port: string, path: string, user: string, password: string,
                     query: string)

  /** A dictionary in insertion order. */
  type Params = seq<(string, string)>

  function Keys(ps: Params): set<string> { set i | 0 <= i < |ps| :: ps[i].0 }

  predicate NoKeyTwice(ps: Params) { forall i, j | 0 <= i < j < |ps| :: ps[i].0 != ps[j].0 }

  /** Set a key: in its place if it is there, or else at the end. */
  function Put(ps: Params, k: string, v: string): Params
  {
    if ps == [] then [(k, v)]
    else if ps[0].0 == k then [(k, v)] + ps[1..]
    else [ps[0]] + Put(ps[1..], k, v)
  }

  function Get(ps: Params, k: string): Option<string>
  {
    if ps == [] then None else if ps[0].0 == k then Some(ps[0].1) else Get(ps[1..], k)
  }

  // -- text --------------------------------------------------------------------------------------

  function Before(s: string, c: char): string
  {
    if s == "" || s[0] == c then "" else [s[0]] + Before(s[1..], c)
  }

  function After(s: string, c: char): (r: string)
    ensures c in s ==> |r| < |s|
  {
    if s == "" then "" else if s[0] == c then s[1..] else After(s[1..], c)
  }

  lemma {:induction false} FirstSplits(a: string, c: char, b: string)
    requires c !in a
    ensures Before(a + [c] + b, c) == a && After(a + [c] + b, c) == b
  {
    var s := a + [c] + b;
    if a == "" {
      assert s[1..] == b;
    } else {
      assert s[1..] == a[1..] + [c] + b;
      FirstSplits(a[1..], c, b);
    }
  }

  function Pieces(s: string, c: char): seq<string>
    decreases |s|
  {
    if c in s then [Before(s, c)] + Pieces(After(s, c), c) else [s]
  }

  function Joined(pieces: seq<string>, c: char): string
    requires pieces != []
  {
    if |pieces| == 1 then pieces[0] else pieces[0] + [c] + Joined(pieces[1..], c)
  }

  lemma {:induction false} SplitsAtFirst(s: string, c: char)
    requires c in s
    ensures s == Before(s, c) + [c] + After(s, c) && c !in Before(s, c)
  {
    if s[0] != c {
      SplitsAtFirst(s[1..], c);
      assert s == [s[0]] + s[1..];
    }
  }

  /** The pieces are what stands between the separators, and nothing is lost. */
  lemma {:induction false} PiecesJoin(s: string, c: char)
    ensures Pieces(s, c) != [] && Joined(Pieces(s, c), c) == s
    ensures forall piece | piece in Pieces(s, c) :: c !in piece
    decreases |s|
  {
    if c in s {
      SplitsAtFirst(s, c);
      PiecesJoin(After(s, c), c);
      assert Pieces(s, c)[1..] == Pieces(After(s, c), c);
    }
  }

  function TrimStart(s: string, space: char -> bool): string
  {
    if s != "" && space(s[0]) then TrimStart(s[1..], space) else s
  }

  function TrimEnd(s: string, space: char -> bool): string
  {
    if s != "" && space(s[|s| - 1]) then TrimEnd(s[..|s| - 1], space) else s
  }

  function Trim(s: string, space: char -> bool): string { TrimEnd(TrimStart(s, space), space) }

  lemma {:induction false} TrimsShorten(s: string, space: char -> bool)
    ensures |TrimEnd(s, space)| <= |s| && (|TrimEnd(s, space)| == |s| <==> s == "" || !space(s[|s| - 1]))
    ensures |TrimStart(s, space)| <= |s| && (|TrimStart(s, space)| == |s| <==> s == "" || !space(s[0]))
  {
    if s != "" {
      TrimsShorten(s[1..], space);
      TrimsShorten(s[..|s| - 1], space);
    }
  }

  /** Trimming leaves a text as it is exactly when neither end is blank. */
  lemma TrimsBlankEnds(s: string, space: char -> bool)
    ensures Trim(s, space) == s <==> s == "" || (!space(s[0]) && !space(s[|s| - 1]))
  {
    TrimsShorten(s, space);
    TrimsShorten(TrimStart(s, space), space);
  }

  // -- the parameters ------------------------------------------------------------------------------

  function WithoutSlashes(path: string): string
  {
    if path != "" && path[0] == '/' then WithoutSlashes(path[1..]) else path
  }

  /** What the URI says outside its query. */
  function Base(uri: Uri, decode: string -> Option<string>): Option<Params>
  {
    var dbname, user, password := decode(WithoutSlashes(uri.path)), decode(uri.user), decode(uri.password);
    if (uri.scheme != "postgres" && uri.scheme != "postgresql") || uri.host == "" || dbname.None? || user.None?
       || password.None?
    then None
    else Some([("host", uri.host), ("port", uri.port), ("dbname", dbname.value), ("user", user.value),
               ("password", password.value)])
  }

  /** A query parameter, unless it cannot be decoded or is blank. */
  function Parameter(piece: string, decode: string -> Option<string>): Option<(string, string)>
  {
    var k, v := decode(Before(piece, '=')), decode(After(piece, '='));
    if k.None? || v.None? || v.value == "" then None else Some((k.value, v.value))
  }

  /** The query's parameters in order, unless one is refused or repeated. */
  function Query(pieces: seq<string>, decode: string -> Option<string>): Option<Params>
  {
    if pieces == [] then Some([]) else
      var piece, rest := pieces[|pieces| - 1], Query(pieces[..|pieces| - 1], decode);
      if rest.None? || piece == "" then rest
      else if Parameter(piece, decode).None? || Parameter(piece, decode).value.0 in Keys(rest.value) then None
      else Some(rest.value + [Parameter(piece, decode).value])
  }

  function Merge(base: Params, query: Params): Params
  {
    if query == [] then base else
      var last := query[|query| - 1];
      Put(Merge(base, query[..|query| - 1]), last.0, last.1)
  }

  function Meant(uri: Uri, decode: string -> Option<string>): Option<Params>
  {
    var base, query := Base(uri, decode), Query(Pieces(uri.query, '&'), decode);
    if base.None? || query.None? then None else Some(Merge(base.value, query.value))
  }

  // -- the file ------------------------------------------------------------------------------------

  predicate IsKeyword(k: string) { k != "" && forall c | c in k :: 'a' <= c <= 'z' || c == '_' }

  predicate Writable(p: (string, string), space: char -> bool)
  {
    && IsKeyword(p.0) && p.0 != "service"
    && '\r' !in p.1 && '\n' !in p.1 && '\0' !in p.1 && Trim(p.1, space) == p.1
  }

  function NonBlank(ps: Params): Params
  {
    if ps == [] then [] else
      NonBlank(ps[..|ps| - 1]) + if ps[|ps| - 1].1 == "" then [] else [ps[|ps| - 1]]
  }

  function Line(p: (string, string)): string { p.0 + "=" + p.1 + "\n" }

  /** Read one line: a keyword up to the first `=`, and a value whose ends are trimmed. */
  function ReadLine(line: string, space: char -> bool): (string, string)
  {
    (Before(line, '='), Trim(After(line, '='), space))
  }

  function ReadLines(text: string, space: char -> bool): Params
    decreases |text|
  {
    if '\n' in text then [ReadLine(Before(text, '\n'), space)] + ReadLines(After(text, '\n'), space) else []
  }

  /** Read a service file: the lines after its section's name. */
  function ReadFile(text: string, space: char -> bool): Params { ReadLines(After(text, '\n'), space) }

  lemma LineReadsBack(p: (string, string), rest: string, space: char -> bool)
    requires Writable(p, space)
    ensures ReadLines(Line(p) + rest, space) == [p] + ReadLines(rest, space)
  {
    var line := p.0 + "=" + p.1;
    assert '=' !in p.0 && '\n' !in p.0;
    FirstSplits(p.0, '=', p.1);
    assert Line(p) + rest == line + ['\n'] + rest;
    FirstSplits(line, '\n', rest);
  }

  function Lines(ps: Params): string { if ps == [] then "" else Line(ps[0]) + Lines(ps[1..]) }

  lemma {:induction false} LinesSnoc(ps: Params, p: (string, string))
    ensures Lines(ps + [p]) == Lines(ps) + Line(p)
  {
    if ps == [] {
      assert (ps + [p])[1..] == [];
    } else {
      assert (ps + [p])[1..] == ps[1..] + [p];
      LinesSnoc(ps[1..], p);
    }
  }

  lemma {:induction false} LinesReadBack(ps: Params, space: char -> bool)
    requires forall p | p in ps :: Writable(p, space)
    ensures ReadLines(Lines(ps), space) == ps
  {
    if ps != [] {
      LinesReadBack(ps[1..], space);
      LineReadsBack(ps[0], Lines(ps[1..]), space);
    }
  }

  // -- what the parameters mean ---------------------------------------------------------------------

  lemma {:induction false} PutSets(ps: Params, k: string, v: string, key: string)
    ensures Get(Put(ps, k, v), key) == if key == k then Some(v) else Get(ps, key)
    ensures Keys(Put(ps, k, v)) == Keys(ps) + {k}
    ensures NoKeyTwice(ps) ==> NoKeyTwice(Put(ps, k, v))
  {
    var put := Put(ps, k, v);
    if ps == [] {
      assert put[0].0 == k;
    } else if ps[0].0 == k {
      assert put[0].0 == k && forall i | 1 <= i < |ps| :: put[i] == ps[i];
      KeysAre(ps, put);
    } else {
      PutSets(ps[1..], k, v, key);
      var rest := Put(ps[1..], k, v);
      assert forall i | 0 <= i < |rest| :: put[i + 1] == rest[i];
      assert forall i | 0 <= i < |ps[1..]| :: ps[i + 1] == ps[1..][i];
      FirstKey(put);
      FirstKey(ps);
      if NoKeyTwice(ps) {
        assert NoKeyTwice(ps[1..]) && ps[0].0 !in Keys(ps[1..]);
        NoKeyTwiceFirst(put);
      }
    }
  }

  lemma KeysAre(a: Params, b: Params)
    requires |a| == |b| && forall i | 0 <= i < |a| :: a[i].0 == b[i].0
    ensures Keys(a) == Keys(b)
  {
    forall k ensures k in Keys(a) <==> k in Keys(b) {
      if k in Keys(a) { var i :| 0 <= i < |a| && a[i].0 == k; assert b[i].0 == k; }
      if k in Keys(b) { var i :| 0 <= i < |b| && b[i].0 == k; assert a[i].0 == k; }
    }
  }

  lemma FirstKey(ps: Params)
    requires ps != []
    ensures Keys(ps) == {ps[0].0} + Keys(ps[1..])
  {
    forall k ensures k in Keys(ps) <==> k == ps[0].0 || k in Keys(ps[1..]) {
      if k in Keys(ps) && k != ps[0].0 { var i :| 0 <= i < |ps| && ps[i].0 == k; assert ps[1..][i - 1].0 == k; }
      if k in Keys(ps[1..]) { var i :| 0 <= i < |ps| - 1 && ps[1..][i].0 == k; assert ps[i + 1].0 == k; }
    }
  }

  lemma NoKeyTwiceFirst(ps: Params)
    requires ps != [] && NoKeyTwice(ps[1..]) && ps[0].0 !in Keys(ps[1..])
    ensures NoKeyTwice(ps)
  {
    forall i, j | 0 <= i < j < |ps| ensures ps[i].0 != ps[j].0 {
      assert ps[j] == ps[1..][j - 1];
      if i > 0 { assert ps[i] == ps[1..][i - 1]; }
    }
  }

  /** The query's values override the rest of the URI's, and no key is there twice. */
  lemma {:induction false} QueryOverrides(base: Params, query: Params, key: string)
    requires NoKeyTwice(base) && NoKeyTwice(query)
    ensures Get(Merge(base, query), key) == if key in Keys(query) then Get(query, key) else Get(base, key)
    ensures NoKeyTwice(Merge(base, query))
  {
    if query != [] {
      var n := |query| - 1;
      var last, rest := query[n], query[..n];
      QueryOverrides(base, rest, key);
      PutSets(Merge(base, rest), last.0, last.1, key);
      assert query == rest + [last];
      LastKey(rest, last, key);
    }
  }

  lemma {:induction false} LastKey(rest: Params, last: (string, string), key: string)
    ensures key in Keys(rest + [last]) <==> key in Keys(rest) || key == last.0
    ensures Get(rest + [last], key) ==
            if key in Keys(rest) then Get(rest, key) else if key == last.0 then Some(last.1) else None
    ensures key in Keys(rest) <==> Get(rest, key).Some?
  {
    var all := rest + [last];
    if rest == [] {
      assert all[0] == last && all[1..] == [];
      FirstKey(all);
    } else {
      assert all[1..] == rest[1..] + [last];
      LastKey(rest[1..], last, key);
      FirstKey(all);
      FirstKey(rest);
    }
  }

  lemma {:induction false} QueryIsDistinct(pieces: seq<string>, decode: string -> Option<string>)
    requires Query(pieces, decode).Some?
    ensures NoKeyTwice(Query(pieces, decode).value)
  {
    if pieces != [] {
      var rest := pieces[..|pieces| - 1];
      QueryIsDistinct(rest, decode);
      var ps := Query(rest, decode).value;
      forall i | 0 <= i < |ps| ensures ps[i].0 in Keys(ps) {
      }
    }
  }

  /** A piece of the query that sets `key`. */
  predicate Sets(piece: string, decode: string -> Option<string>, key: string)
  {
    piece != "" && Parameter(piece, decode).Some? && Parameter(piece, decode).value.0 == key
  }

  lemma {:induction false} QueryKeys(pieces: seq<string>, decode: string -> Option<string>, key: string)
    requires Query(pieces, decode).Some?
    ensures key in Keys(Query(pieces, decode).value) <==> exists i :: 0 <= i < |pieces| && Sets(pieces[i], decode, key)
  {
    if pieces != [] {
      var n := |pieces| - 1;
      var rest := pieces[..n];
      QueryKeys(rest, decode, key);
      var ps := Query(rest, decode).value;
      if exists i :: 0 <= i < n && Sets(rest[i], decode, key) {
        var i :| 0 <= i < n && Sets(rest[i], decode, key);
        assert Sets(pieces[i], decode, key);
      }
      if pieces[n] != "" { LastKey(ps, Parameter(pieces[n], decode).value, key); }
      if exists i :: 0 <= i < |pieces| && Sets(pieces[i], decode, key) {
        var i :| 0 <= i < |pieces| && Sets(pieces[i], decode, key);
        assert i == n || rest[i] == pieces[i];
      }
    }
  }

  /** Two pieces set one key. */
  predicate Repeats(earlier: string, later: string, decode: string -> Option<string>)
  {
    earlier != "" && later != "" && decode(Before(earlier, '=')) == decode(Before(later, '='))
  }

  /** An empty piece, or one that can be decoded, is not blank and sets no key an earlier one set. */
  ghost predicate Accepted(pieces: seq<string>, decode: string -> Option<string>, j: nat)
    requires j < |pieces|
  {
    || pieces[j] == ""
    || (&& decode(Before(pieces[j], '=')).Some?
        && decode(After(pieces[j], '=')).Some? && decode(After(pieces[j], '=')).value != ""
        && forall i | 0 <= i < j :: !Repeats(pieces[i], pieces[j], decode))
  }

  ghost predicate AllAccepted(pieces: seq<string>, decode: string -> Option<string>)
  {
    forall j | 0 <= j < |pieces| :: Accepted(pieces, decode, j)
  }

  lemma {:induction false} PiecesHaveParameters(pieces: seq<string>, decode: string -> Option<string>, i: nat)
    requires Query(pieces, decode).Some? && i < |pieces| && pieces[i] != ""
    ensures Parameter(pieces[i], decode).Some?
    decreases |pieces|
  {
    if i < |pieces| - 1 { PiecesHaveParameters(pieces[..|pieces| - 1], decode, i); }
  }

  lemma LastAccepted(pieces: seq<string>, decode: string -> Option<string>)
    requires pieces != [] && Query(pieces[..|pieces| - 1], decode).Some?
    ensures Query(pieces, decode).Some? <==> Accepted(pieces, decode, |pieces| - 1)
  {
    var n := |pieces| - 1;
    var rest := pieces[..n];
    if pieces[n] != "" && Parameter(pieces[n], decode).Some? {
      var key := Parameter(pieces[n], decode).value.0;
      QueryKeys(rest, decode, key);
      if key in Keys(Query(rest, decode).value) {
        var i :| 0 <= i < n && Sets(rest[i], decode, key);
        assert Repeats(pieces[i], pieces[n], decode);
      } else {
        forall i | 0 <= i < n ensures !Repeats(pieces[i], pieces[n], decode) {
          if rest[i] != "" { PiecesHaveParameters(rest, decode, i); }
          assert pieces[i] == rest[i] && !Sets(rest[i], decode, key);
        }
      }
    }
  }

  /** A query is accepted exactly when each parameter can be decoded and is not blank, and none is repeated. */
  lemma {:induction false} QueryAccepted(pieces: seq<string>, decode: string -> Option<string>)
    ensures Query(pieces, decode).Some? <==> AllAccepted(pieces, decode)
  {
    if pieces != [] {
      var n := |pieces| - 1;
      var rest := pieces[..n];
      QueryAccepted(rest, decode);
      forall j | 0 <= j < n ensures Accepted(pieces, decode, j) <==> Accepted(rest, decode, j) {
        assert forall i | 0 <= i <= j :: pieces[i] == rest[i];
      }
      if Query(rest, decode).Some? {
        LastAccepted(pieces, decode);
      } else {
        var j :| 0 <= j < n && !Accepted(rest, decode, j);
        assert !Accepted(pieces, decode, j);
      }
    }
  }

  // -- printing ------------------------------------------------------------------------------------

  lemma {:induction false} QueryStaysRefused(pieces: seq<string>, n: nat, decode: string -> Option<string>)
    requires n <= |pieces| && Query(pieces[..n], decode).None?
    ensures Query(pieces, decode).None?
    decreases |pieces|
  {
    if n < |pieces| {
      var rest := pieces[..|pieces| - 1];
      assert rest[..n] == pieces[..n];
      QueryStaysRefused(rest, n, decode);
    } else {
      assert pieces[..n] == pieces;
    }
  }

  lemma {:induction false} NonBlankIn(ps: Params, i: nat)
    requires i < |ps| && ps[i].1 != ""
    ensures ps[i] in NonBlank(ps)
    decreases |ps|
  {
    if i < |ps| - 1 { NonBlankIn(ps[..|ps| - 1], i); }
  }

  lemma OneMorePiece(pieces: seq<string>, i: nat, decode: string -> Option<string>, base: Params)
    requires i < |pieces| && Query(pieces[..i], decode).Some?
    ensures var before, next := Query(pieces[..i], decode).value, Query(pieces[..i + 1], decode);
            var p := Parameter(pieces[i], decode);
            if pieces[i] == "" then next == Some(before)
            else if p.None? || p.value.0 in Keys(before) then next.None?
            else next.Some? && Keys(next.value) == Keys(before) + {p.value.0}
                 && Merge(base, next.value) == Put(Merge(base, before), p.value.0, p.value.1)
  {
    assert pieces[..i + 1][..i] == pieces[..i];
    var before, p := Query(pieces[..i], decode).value, Parameter(pieces[i], decode);
    if pieces[i] != "" && p.Some? {
      assert (before + [p.value])[..|before|] == before;
      forall k ensures k in Keys(before + [p.value]) <==> k in Keys(before) || k == p.value.0 {
        LastKey(before, p.value, k);
      }
    }
  }

  /** Read the query over the rest of the URI. */
  method ReadQuery(uri: Uri, decode: string -> Option<string>) returns (r: Option<Params>)
    ensures r == Meant(uri, decode)
  {
    var base := Base(uri, decode);
    if base.None? { return None; }
    var params, queried: set<string> := base.value, {};
    var pieces := Pieces(uri.query, '&');
    for i := 0 to |pieces|
      invariant Query(pieces[..i], decode).Some?
      invariant params == Merge(base.value, Query(pieces[..i], decode).value)
      invariant queried == Keys(Query(pieces[..i], decode).value)
    {
      OneMorePiece(pieces, i, decode, base.value);
      if pieces[i] == "" { continue; }
      var p := Parameter(pieces[i], decode);
      if p.None? || p.value.0 in queried {
        QueryStaysRefused(pieces, i + 1, decode);
        return None;
      }
      queried := queried + {p.value.0};
      params := Put(params, p.value.0, p.value.1);
    }
    assert pieces[..|pieces|] == pieces;
    r := Some(params);
  }

  method PrintLines(params: Params, space: char -> bool) returns (r: Option<string>)
    ensures r.Some? <==> forall p | p in NonBlank(params) :: Writable(p, space)
    ensures r.Some? ==> r.value == Lines(NonBlank(params))
  {
    var text := "";
    for i := 0 to |params|
      invariant text == Lines(NonBlank(params[..i]))
      invariant forall p | p in NonBlank(params[..i]) :: Writable(p, space)
    {
      assert params[..i + 1][..i] == params[..i];
      if params[i].1 == "" {
        assert NonBlank(params[..i + 1]) == NonBlank(params[..i]);
        continue;
      }
      if !Writable(params[i], space) {
        NonBlankIn(params, i);
        return None;
      }
      LinesSnoc(NonBlank(params[..i]), params[i]);
      text := text + Line(params[i]);
    }
    assert params[..|params|] == params;
    r := Some(text);
  }

  /** Print a service file. It is refused exactly when the URI is, or a key is not a keyword or names a service, or a
      value has a line break or a NUL or blank ends, and what it prints, under its name, reads back as exactly
      the parameters that are not blank. */
  method PgService(uri: Uri, name: string, decode: string -> Option<string>, space: char -> bool)
    returns (r: Option<string>)
    requires '\n' !in name
    ensures r.Some? <==>
              && Meant(uri, decode).Some?
              && forall p | p in NonBlank(Meant(uri, decode).value) ::
                   && p.0 != "" && (forall c | c in p.0 :: 'a' <= c <= 'z' || c == '_') && p.0 != "service"
                   && '\r' !in p.1 && '\n' !in p.1 && '\0' !in p.1 && Trim(p.1, space) == p.1
    ensures r.Some? ==> '\n' in r.value && Before(r.value, '\n') == "[" + name + "]"
    ensures r.Some? ==> ReadFile(r.value, space) == NonBlank(Meant(uri, decode).value)
  {
    var read := ReadQuery(uri, decode);
    if read.None? { return None; }
    var lines := PrintLines(read.value, space);
    if lines.None? { return None; }
    var header := "[" + name + "]";
    LinesReadBack(NonBlank(read.value), space);
    FirstSplits(header, '\n', lines.value);
    r := Some(header + ['\n'] + lines.value);
  }

  lemma {:induction false} NonBlankKeeps(ps: Params, key: string)
    requires NoKeyTwice(ps)
    ensures NoKeyTwice(NonBlank(ps))
    ensures Keys(NonBlank(ps)) <= Keys(ps)
    ensures Get(NonBlank(ps), key) == if Get(ps, key) == Some("") then None else Get(ps, key)
  {
    if ps != [] {
      var n := |ps| - 1;
      var last, rest := ps[n], ps[..n];
      assert ps == rest + [last];
      NonBlankKeeps(rest, key);
      forall k ensures k in Keys(rest) ==> k != last.0 {
        if k in Keys(rest) { var i :| 0 <= i < n && rest[i].0 == k; assert ps[i].0 == k; }
      }
      LastKey(rest, last, key);
      var kept := NonBlank(rest);
      LastKey(kept, last, key);
      assert NonBlank(ps) == if last.1 == "" then kept else kept + [last];
      forall k ensures k in Keys(NonBlank(ps)) ==> k in Keys(ps) {
        LastKey(rest, last, k);
        LastKey(kept, last, k);
      }
      forall i | 0 <= i < |kept| ensures kept[i].0 != last.0 { assert kept[i].0 in Keys(kept); }
    }
  }

  /** What a printed file means: for each key the query's value, or else the URI's own, or nothing if that is
      blank, and no key twice. */
  lemma FileMeansTheUri(uri: Uri, decode: string -> Option<string>, key: string)
    requires Meant(uri, decode).Some?
    ensures var base, query := Base(uri, decode).value, Query(Pieces(uri.query, '&'), decode).value;
            var meant := if key in Keys(query) then Get(query, key) else Get(base, key);
            && NoKeyTwice(NonBlank(Meant(uri, decode).value))
            && Get(NonBlank(Meant(uri, decode).value), key) == if meant == Some("") then None else meant
  {
    var base, query := Base(uri, decode).value, Query(Pieces(uri.query, '&'), decode).value;
    QueryIsDistinct(Pieces(uri.query, '&'), decode);
    QueryOverrides(base, query, key);
    NonBlankKeeps(Merge(base, query), key);
  }

  // -- the URI's own fields -------------------------------------------------------------------------

  /** The value of a key in the file printed for a URI. */
  function InFile(uri: Uri, decode: string -> Option<string>, key: string): Option<string>
    requires Meant(uri, decode).Some?
  {
    Get(NonBlank(Meant(uri, decode).value), key)
  }

  function Unblank(v: Option<string>): Option<string> { if v == Some("") then None else v }

  ghost predicate Queried(uri: Uri, decode: string -> Option<string>, key: string)
  {
    exists piece :: piece in Pieces(uri.query, '&') && piece != "" && decode(Before(piece, '=')) == Some(key)
  }

  lemma QueriedAreKeys(uri: Uri, decode: string -> Option<string>, key: string)
    requires Meant(uri, decode).Some?
    ensures key in Keys(Query(Pieces(uri.query, '&'), decode).value) <==> Queried(uri, decode, key)
  {
    var pieces := Pieces(uri.query, '&');
    QueryKeys(pieces, decode, key);
    if Queried(uri, decode, key) {
      var piece :| piece in pieces && piece != "" && decode(Before(piece, '=')) == Some(key);
      var i :| 0 <= i < |pieces| && pieces[i] == piece;
      PiecesHaveParameters(pieces, decode, i);
      assert Sets(pieces[i], decode, key);
    }
    if i :| 0 <= i < |pieces| && Sets(pieces[i], decode, key) {
      assert pieces[i] in pieces;
    }
  }

  lemma {:induction false} SlashesGo(n: nat, rest: string)
    requires rest == "" || rest[0] != '/'
    ensures WithoutSlashes(seq(n, _ => '/') + rest) == rest
  {
    var path := seq(n, _ => '/') + rest;
    if n > 0 {
      assert path[1..] == seq(n - 1, _ => '/') + rest;
      SlashesGo(n - 1, rest);
    } else {
      assert path == rest;
    }
  }

  /** What the file says of a key the query does not set: the URI's host and port, its decoded path past any slashes,
      its decoded user and password, each under its own name and left out if blank, and nothing else. */
  lemma FileGivesTheFields(uri: Uri, decode: string -> Option<string>, key: string, slashes: nat, dbname: string)
    requires Meant(uri, decode).Some? && !Queried(uri, decode, key)
    requires uri.path == seq(slashes, _ => '/') + dbname && (dbname == "" || dbname[0] != '/')
    ensures key == "host" ==> InFile(uri, decode, key) == Some(uri.host)
    ensures key == "port" ==> InFile(uri, decode, key) == Unblank(Some(uri.port))
    ensures key == "dbname" ==> InFile(uri, decode, key) == Unblank(decode(dbname))
    ensures key == "user" ==> InFile(uri, decode, key) == Unblank(decode(uri.user))
    ensures key == "password" ==> InFile(uri, decode, key) == Unblank(decode(uri.password))
    ensures key !in {"host", "port", "dbname", "user", "password"} ==> InFile(uri, decode, key) == None
  {
    FileMeansTheUri(uri, decode, key);
    QueriedAreKeys(uri, decode, key);
    SlashesGo(slashes, dbname);
    BaseGives(uri, decode, key);
  }

  lemma {:induction false} GetsTheFirst(ps: Params, i: nat)
    requires i < |ps| && forall j | 0 <= j < i :: ps[j].0 != ps[i].0
    ensures Get(ps, ps[i].0) == Some(ps[i].1)
  {
    if i > 0 {
      forall j | 0 <= j < i - 1 ensures ps[1..][j].0 != ps[1..][i - 1].0 { assert ps[1..][j] == ps[j + 1]; }
      GetsTheFirst(ps[1..], i - 1);
    }
  }

  lemma {:induction false} GetsNothing(ps: Params, key: string)
    requires forall j | 0 <= j < |ps| :: ps[j].0 != key
    ensures Get(ps, key) == None
  {
    if ps != [] {
      assert ps[0].0 != key;
      forall j | 0 <= j < |ps| - 1 ensures ps[1..][j].0 != key { assert ps[1..][j] == ps[j + 1]; }
      GetsNothing(ps[1..], key);
    }
  }

  lemma BaseGives(uri: Uri, decode: string -> Option<string>, key: string)
    requires Base(uri, decode).Some?
    ensures Get(Base(uri, decode).value, key) ==
            if key == "host" then Some(uri.host)
            else if key == "port" then Some(uri.port)
            else if key == "dbname" then decode(WithoutSlashes(uri.path))
            else if key == "user" then decode(uri.user)
            else if key == "password" then decode(uri.password) else None
  {
    var base := Base(uri, decode).value;
    assert "host"[0] == 'h' && "port"[0] == 'p' && "dbname"[0] == 'd' && "user"[0] == 'u' && "password"[0] == 'p';
    assert |"port"| == 4 && |"password"| == 8;
    if i :| 0 <= i < |base| && base[i].0 == key {
      GetsTheFirst(base, i);
    } else {
      assert base[0].0 != key && base[1].0 != key && base[2].0 != key && base[3].0 != key && base[4].0 != key;
      GetsNothing(base, key);
    }
  }

  lemma {:induction false} QueryGives(pieces: seq<string>, decode: string -> Option<string>, i: nat)
    requires Query(pieces, decode).Some? && i < |pieces| && pieces[i] != "" && Parameter(pieces[i], decode).Some?
    ensures var p := Parameter(pieces[i], decode).value;
            p.0 in Keys(Query(pieces, decode).value) && Get(Query(pieces, decode).value, p.0) == Some(p.1)
    decreases |pieces|
  {
    var n := |pieces| - 1;
    var rest, p := pieces[..n], Parameter(pieces[i], decode).value;
    var ps := Query(rest, decode).value;
    if i < n { QueryGives(rest, decode, i); }
    if pieces[n] != "" { LastKey(ps, Parameter(pieces[n], decode).value, p.0); }
  }

  /** What the file says of a key the query sets: `k=v` gives the decoded `v` under the decoded `k`. */
  lemma FileGivesTheQuery(uri: Uri, decode: string -> Option<string>, k: string, v: string)
    requires Meant(uri, decode).Some? && '=' !in k && k + "=" + v in Pieces(uri.query, '&')
    ensures decode(k).Some? && decode(v).Some? && InFile(uri, decode, decode(k).value) == decode(v)
  {
    var pieces := Pieces(uri.query, '&');
    var i :| 0 <= i < |pieces| && pieces[i] == k + "=" + v;
    FirstSplits(k, '=', v);
    PiecesHaveParameters(pieces, decode, i);
    QueryGives(pieces, decode, i);
    FileMeansTheUri(uri, decode, decode(k).value);
  }

  /** A URI is accepted exactly when it is PostgreSQL's, names a host, and everything in it can be decoded, with no
      query parameter blank or repeated. */
  lemma UriAccepted(uri: Uri, decode: string -> Option<string>)
    ensures Meant(uri, decode).Some? <==>
              && (uri.scheme == "postgres" || uri.scheme == "postgresql") && uri.host != ""
              && decode(WithoutSlashes(uri.path)).Some? && decode(uri.user).Some? && decode(uri.password).Some?
              && AllAccepted(Pieces(uri.query, '&'), decode)
  {
    QueryAccepted(Pieces(uri.query, '&'), decode);
  }
}
