/** Creating a secret once on a store with no create-if-absent: every version is kept and
    numbered, and hosts that found the secret missing may all add one. Each call to the
    store is one step, and hosts' steps interleave in any order. */
module CreateOnce {
  import opened Options

  type Host = nat
  type Value = nat

  /** Where a host is in putting its value. */
  datatype At =
    | Begun                          // about to read the latest version
    | Found(result: Value)           // returned the secret that was there
    | Missing                        // read nothing: about to add its own value
    | Later                          // added a version that is not the first: about to read version 1
    | Repairing(first: Value)        // version 1 holds another value: about to add that again
    | Looking                        // version 1 holds its own value: about to read the latest
    | Kept(result: Value)            // returned, having found the secret missing

  datatype System = System(versions: seq<Value>, hosts: map<Host, At>)

  /** Between its add and its repair. */
  predicate Pending(a: At) { a.Later? || a.Repairing? }

  predicate SomePending(s: System) { exists h :: h in s.hosts && Pending(s.hosts[h]) }

  function Latest(s: System): Option<Value>
  {
    if s.versions == [] then None else Some(s.versions[|s.versions| - 1])
  }

  /** One call of host `h`, which has `value` to put. */
  function Call(s: System, h: Host, value: Value): System
    requires h in s.hosts
  {
    match s.hosts[h]
    case Begun => Now(s, h, if s.versions == [] then Missing else Found(Latest(s).value))
    case Missing => Adding(s, value, h, if s.versions == [] then Kept(value) else Later)
    case Later =>
      if s.versions == [] then s
      else Now(s, h, if s.versions[0] != value then Repairing(s.versions[0]) else Looking)
    case Repairing(first) => Adding(s, first, h, Kept(first))
    case Looking => if s.versions == [] then s else Now(s, h, Kept(Latest(s).value))
    case _ => s
  }

  function Now(s: System, h: Host, a: At): System { s.(hosts := s.hosts[h := a]) }

  function Adding(s: System, value: Value, h: Host, a: At): System
  {
    System(s.versions + [value], s.hosts[h := a])
  }

  /** The system after the hosts in `order` each made a call, in that order. */
  function Interleaved(values: map<Host, Value>, order: seq<Host>): System
    requires forall h | h in order :: h in values
    ensures Interleaved(values, order).hosts.Keys == values.Keys
  {
    if order == [] then System([], map h | h in values :: Begun) else
      var last := order[|order| - 1];
      Call(Interleaved(values, order[..|order| - 1]), last, values[last])
  }

  /** Two writers never hold the same value while a third holds another. */
  ghost predicate Apart(values: map<Host, Value>)
  {
    forall g, h, k | g in values && h in values && k in values && g != h && values[g] == values[h] ::
      values[k] == values[g]
  }

  /** Who added version 1, once there is one: it is not on its way to a later version. */
  ghost predicate First(values: map<Host, Value>, s: System, h: Host)
  {
    h in values && h in s.hosts && s.versions != [] && values[h] == s.versions[0] && s.hosts[h] == Kept(values[h])
  }

  /** Wherever the interleaving got to: what was kept is version 1's value, and so is the latest version
      unless a host that added it has yet to repair it. */
  ghost predicate Inv(values: map<Host, Value>, s: System)
  {
    && s.hosts.Keys == values.Keys
    && (s.versions == [] ==> forall h | h in values :: s.hosts[h].Begun? || s.hosts[h].Missing?)
    && (s.versions != [] ==>
          && (exists h :: First(values, s, h))
          && (forall v | v in s.versions :: exists h :: h in values && values[h] == v)
          && (Latest(s) == Some(s.versions[0])
              || exists h :: h in values && Pending(s.hosts[h]) && Latest(s) == Some(values[h]))
          && (forall h | h in values && s.hosts[h].Kept? :: s.hosts[h].result == s.versions[0])
          && (forall h | h in values && s.hosts[h].Repairing? :: s.hosts[h].first == s.versions[0])
          && (forall h | h in values && s.hosts[h].Looking? :: values[h] == s.versions[0]))
  }

  lemma LookersAgree(values: map<Host, Value>, s: System, h: Host)
    requires Apart(values) && Inv(values, s) && h in values && s.hosts[h].Looking?
    ensures s.versions != [] && Latest(s) == Some(s.versions[0])
  {
    var g :| First(values, s, g);
    var v := Latest(s).value;
    assert v in s.versions;
    var k :| k in values && values[k] == v;
    assert g != h && values[g] == values[h];
  }

  lemma AddKeepsInv(values: map<Host, Value>, s: System, h: Host)
    requires Inv(values, s) && h in values && s.hosts[h].Missing?
    ensures Inv(values, Call(s, h, values[h]))
  {
    var s' := Call(s, h, values[h]);
    if s.versions == [] {
      assert First(values, s', h);
    } else {
      var g :| First(values, s, g);
      assert First(values, s', g);
      assert Pending(s'.hosts[h]);
    }
    forall v | v in s'.versions ensures exists k :: k in values && values[k] == v {
      if v == values[h] { } else { assert v in s.versions; }
    }
  }

  lemma RepairKeepsInv(values: map<Host, Value>, s: System, h: Host)
    requires Inv(values, s) && h in values && s.hosts[h].Repairing?
    ensures Inv(values, Call(s, h, values[h]))
  {
    var s' := Call(s, h, values[h]);
    var g :| First(values, s, g);
    assert First(values, s', g);
    forall v | v in s'.versions ensures exists k :: k in values && values[k] == v {
      assert v in s.versions;
    }
  }

  /** A host that adds nothing stays pending, or did not own the latest version. */
  lemma ReadKeepsInv(values: map<Host, Value>, s: System, h: Host)
    requires Inv(values, s) && h in values && !s.hosts[h].Missing? && !s.hosts[h].Repairing?
    requires s.hosts[h].Looking? ==> Latest(s) == Some(s.versions[0])
    ensures Inv(values, Call(s, h, values[h]))
  {
    var s' := Call(s, h, values[h]);
    if s.versions != [] {
      var g :| First(values, s, g);
      assert First(values, s', g);
      if Latest(s) != Some(s.versions[0]) {
        var k :| k in values && Pending(s.hosts[k]) && Latest(s) == Some(values[k]);
        assert Pending(s'.hosts[k]);
      }
    }
  }

  lemma CallKeepsInv(values: map<Host, Value>, s: System, h: Host)
    requires Apart(values) && Inv(values, s) && h in values
    ensures Inv(values, Call(s, h, values[h]))
  {
    if s.hosts[h].Missing? {
      AddKeepsInv(values, s, h);
    } else if s.hosts[h].Repairing? {
      RepairKeepsInv(values, s, h);
    } else {
      if s.hosts[h].Looking? { LookersAgree(values, s, h); }
      ReadKeepsInv(values, s, h);
    }
  }

  lemma {:induction false} InvHolds(values: map<Host, Value>, order: seq<Host>)
    requires Apart(values) && forall h | h in order :: h in values
    ensures Inv(values, Interleaved(values, order))
  {
    if order != [] {
      var rest := order[..|order| - 1];
      InvHolds(values, rest);
      CallKeepsInv(values, Interleaved(values, rest), order[|order| - 1]);
    }
  }

  /** In every interleaving, every host that found the secret missing returns version 1's value, and whenever no
      host is between its add and its repair, the latest version holds that value too. */
  lemma AllKeepTheFirst(values: map<Host, Value>, order: seq<Host>, h: Host)
    requires Apart(values) && (forall g | g in order :: g in values) && h in values
    ensures var s := Interleaved(values, order);
            && (s.hosts[h].Kept? ==> s.versions != [] && s.hosts[h].result == s.versions[0])
            && (s.versions != [] && !SomePending(s) ==> Latest(s) == Some(s.versions[0]))
  {
    InvHolds(values, order);
  }

  /** Whoever found the secret returned a version there is. */
  ghost predicate FoundThere(s: System)
  {
    forall h | h in s.hosts && s.hosts[h].Found? :: s.hosts[h].result in s.versions
  }

  lemma CallKeepsFound(s: System, h: Host, value: Value)
    requires FoundThere(s) && h in s.hosts
    ensures FoundThere(Call(s, h, value))
  {
  }

  /** Whatever the values, in every interleaving. */
  lemma {:induction false} FoundIsAVersion(values: map<Host, Value>, order: seq<Host>)
    requires forall h | h in order :: h in values
    ensures FoundThere(Interleaved(values, order))
  {
    if order != [] {
      var rest, last := order[..|order| - 1], order[|order| - 1];
      FoundIsAVersion(values, rest);
      CallKeepsFound(Interleaved(values, rest), last, values[last]);
    }
  }

  /** In every interleaving, a host that finds the secret returns a version there is, whatever its own value. That
      is version 1's value unless another host is between its add and its repair. */
  lemma FoundIsTheFirst(values: map<Host, Value>, order: seq<Host>, h: Host)
    requires Apart(values) && (forall g | g in order :: g in values) && h in values
    ensures var s := Interleaved(values, order);
            && (s.hosts[h].Found? ==> s.hosts[h].result in s.versions)
            && (s.hosts[h].Begun? && s.versions != [] ==>
                  var next := Interleaved(values, order + [h]);
                  && next.versions == s.versions && next.hosts[h].Found?
                  && (next.hosts[h].result == s.versions[0] || SomePending(s)))
  {
    InvHolds(values, order);
    FoundIsAVersion(values, order);
    Reaches(values, order, h, order + [h]);
  }

  /** A host finds the secret missing exactly while there is no version of it. */
  lemma MissingExactlyBeforeTheFirst(values: map<Host, Value>, order: seq<Host>, h: Host)
    requires (forall g | g in order :: g in values) && h in values
    requires Interleaved(values, order).hosts[h].Begun?
    ensures Interleaved(values, order + [h]).hosts[h].Missing? <==> Interleaved(values, order).versions == []
  {
    Reaches(values, order, h, order + [h]);
  }

  lemma Reaches(values: map<Host, Value>, order: seq<Host>, h: Host, longer: seq<Host>)
    requires (forall g | g in longer :: g in values) && longer == order + [h]
    ensures Interleaved(values, longer) == Call(Interleaved(values, order), h, values[h])
  {
    assert longer[..|longer| - 1] == order;
  }

  lemma AllMissing(values: map<Host, Value>, g: Host, h: Host, k: Host)
    requires g in values && h in values && k in values && g != h && g != k && h != k
    ensures var s := Interleaved(values, [g, h, k]);
            s.versions == [] && s.hosts[g].Missing? && s.hosts[h].Missing? && s.hosts[k].Missing?
  {
    Reaches(values, [], g, [g]);
    Reaches(values, [g], h, [g, h]);
    Reaches(values, [g, h], k, [g, h, k]);
  }

  lemma TwoAdd(values: map<Host, Value>, g: Host, h: Host, k: Host)
    requires g in values && h in values && k in values && g != h && values[g] == values[h] && values[k] != values[g]
    ensures var s := Interleaved(values, [g, h, k, g, h, h]);
            && s.versions == [values[g], values[g]] && s.hosts[g] == Kept(values[g])
            && s.hosts[h].Looking? && s.hosts[k].Missing?
  {
    AllMissing(values, g, h, k);
    Reaches(values, [g, h, k], g, [g, h, k, g]);
    Reaches(values, [g, h, k, g], h, [g, h, k, g, h]);
    Reaches(values, [g, h, k, g, h], h, [g, h, k, g, h, h]);
  }

  /** Without that condition it fails: of two hosts with one value, the second takes the latest version for
      its own, and a third host's value may be that. */
  lemma EqualValuesCanDisagree(values: map<Host, Value>, g: Host, h: Host, k: Host)
    requires g in values && h in values && k in values && g != h && values[g] == values[h] && values[k] != values[g]
    ensures var s := Interleaved(values, [g, h, k, g, h, h, k, h]);
            && s.versions == [values[g], values[g], values[k]]
            && s.hosts[g] == Kept(values[g]) && s.hosts[h] == Kept(values[k])
  {
    TwoAdd(values, g, h, k);
    Reaches(values, [g, h, k, g, h, h], k, [g, h, k, g, h, h, k]);
    Reaches(values, [g, h, k, g, h, h, k], h, [g, h, k, g, h, h, k, h]);
  }

  ghost predicate Within(values: map<Host, Value>, order: seq<Host>) { forall g | g in order :: g in values }

  ghost predicate KeepsFirst(values: map<Host, Value>, order: seq<Host>, h: Host)
    requires Within(values, order) && h in values
  {
    var s := Interleaved(values, order);
    s.hosts[h].Kept? ==> s.versions != [] && s.hosts[h].result == s.versions[0]
  }

  /** Whatever the hosts, they agree in every interleaving exactly when their values are apart. */
  lemma HostsAgreeExactlyWhenApart(values: map<Host, Value>)
    ensures Apart(values) <==>
              forall order: seq<Host>, h | Within(values, order) && h in values :: KeepsFirst(values, order, h)
  {
    if Apart(values) {
      forall order: seq<Host>, h | Within(values, order) && h in values ensures KeepsFirst(values, order, h) {
        AllKeepTheFirst(values, order, h);
      }
    } else {
      var g, h, k :| g in values && h in values && k in values && g != h
                     && values[g] == values[h] && values[k] != values[g];
      EqualValuesCanDisagree(values, g, h, k);
      var order := [g, h, k, g, h, h, k, h];
      assert Within(values, order) && !KeepsFirst(values, order, h);
    }
  }
}
