/** Copying a treatment from one configuration to another, and when its fail-loud checks can fire at all. */
module DeriveConfig {
  import opened ConfigPaths
  import opened Wrappers

  /** What the function returns or which of its errors it raises. */
  datatype Outcome<T> =
    | Derived(doc: T)
    | NoTreatment
    | RemovesKeys
    | AlreadyTreated
    | UnexpectedDrift
    | NotAMapping
    | WrongKeysApplied
    | Residual

  // ----- delta -----

  /** The keys on which two flattened documents differ, with the second one's value, if any. */
  function Delta(base: Flat, treated: Flat): map<string, Option<Atom>> {
    map k | k in base.Keys + treated.Keys && Get(base, k) != Get(treated, k) :: Get(treated, k)
  }

  function DeltaOf(base: Doc, treated: Doc): map<string, Option<Atom>> {
    Delta(Flatten(base, ""), Flatten(treated, ""))
  }

  lemma DeltaKeys(base: Flat, treated: Flat, k: string)
    ensures k in Delta(base, treated) <==> Get(base, k) != Get(treated, k)
    ensures k in Delta(base, treated) ==> Delta(base, treated)[k] == Get(treated, k)
  {
  }

  // ----- the checks before anything is changed -----

  predicate Removes(treatment: map<string, Option<Atom>>) {
    exists k :: k in treatment && treatment[k].None?
  }

  predicate Carries(treatment: map<string, Option<Atom>>, flat: Flat) {
    exists k :: k in treatment && k in flat && treatment[k] == Some(flat[k])
  }

  predicate DriftsBeyond(drift: map<string, Option<Atom>>, allow: set<string>) {
    exists k :: k in drift && k !in allow
  }

  predicate PreChecks(exampleBase: Doc, exampleTreated: Doc, newBase: Doc, allow: set<string>) {
    var treatment := DeltaOf(exampleBase, exampleTreated);
    && treatment != map[] && !Removes(treatment) && !Carries(treatment, Flatten(newBase, ""))
    && !DriftsBeyond(DeltaOf(exampleBase, newBase), allow)
  }

  // ----- the updates, one key after the other -----

  /** The values of the treatment, for the keys it sets. */
  function Values(treatment: map<string, Option<Atom>>): Flat {
    map k | k in treatment && treatment[k].Some? :: treatment[k].value
  }

  /** Applying the values in some order of keys: None as soon as a path cannot be set. */
  function Apply(doc: Doc, keys: seq<string>, values: Flat): Option<Doc>
    requires forall i | 0 <= i < |keys| :: keys[i] in values
  {
    if keys == [] then Some(doc)
    else
      var d := Apply(doc, keys[..|keys| - 1], values);
      var last := keys[|keys| - 1];
      if d.None? || !CanSet(d.value, Split(last)) then None
      else Some(SetAt(d.value, Split(last), values[last]))
  }

  /** No key continues another: the keys are leaves of one document. */
  ghost predicate PrefixFree(keys: seq<string>) {
    && (forall i, j | 0 <= i < |keys| && 0 <= j < |keys| :: !Beneath(keys[i], keys[j]))
    && (forall i, j | 0 <= i < j < |keys| :: keys[i] != keys[j])
  }

  ghost predicate AnyBeneath(keys: seq<string>, s: string) {
    exists i :: 0 <= i < |keys| && Beneath(keys[i], s)
  }

  // ----- setting one path does not disturb another -----

  /** q is a proper beginning of p. */
  predicate Within(q: seq<string>, p: seq<string>) {
    |q| < |p| && q <= p
  }

  /** Unless it lies above p, setting q leaves the mappings on the way to p as they are. */
  lemma {:induction false} SetKeepsCanSet(doc: Doc, q: seq<string>, a: Atom, p: seq<string>)
    requires q != [] && p != [] && CanSet(doc, q) && !Within(q, p)
    ensures CanSet(SetAt(doc, q, a), p) <==> CanSet(doc, p)
    decreases |q|
  {
    if |p| > 1 {
      if |q| == 1 {
        assert q[0] == p[0] ==> q <= p;
        PutHasKey(doc, q[0], Leaf(a), p[0]);
      } else {
        var sub := Find(doc, q[0]).value.doc;
        PutHasKey(doc, q[0], Dict(SetAt(sub, q[1..], a)), p[0]);
        assert q == [q[0]] + q[1..] && p == [p[0]] + p[1..];
        if q[0] == p[0] {
          SetKeepsCanSet(sub, q[1..], a, p[1..]);
        }
      }
    }
  }

  lemma {:induction false} JoinWithin(q: seq<string>, p: seq<string>)
    requires q != [] && Within(q, p)
    ensures Beneath(Join(q), Join(p))
  {
    if |q| > 1 {
      assert q[1..] <= p[1..];
      JoinWithin(q[1..], p[1..]);
    } else {
      assert q[0] == p[0];
    }
  }

  lemma SplitWithin(q: string, p: string)
    requires !Beneath(q, p)
    ensures !Within(Split(q), Split(p))
  {
    SplitJoins(q);
    SplitJoins(p);
    if Within(Split(q), Split(p)) {
      JoinWithin(Split(q), Split(p));
    }
  }

  /** Off the set paths, the same paths can be set as before. */
  ghost predicate SameWays(d: Doc, doc: Doc, keys: seq<string>) {
    forall p | !AnyBeneath(keys, p) :: CanSet(d, Split(p)) <==> CanSet(doc, Split(p))
  }

  /** The set keys have their new values, nothing lies beneath them, everything else is as before. */
  ghost predicate Overridden(d: Doc, doc: Doc, keys: seq<string>, values: Flat)
    requires forall i | 0 <= i < |keys| :: keys[i] in values
  {
    forall s :: Get(Flatten(d, ""), s)
      == if s in keys then Some(values[s]) else if AnyBeneath(keys, s) then None else Get(Flatten(doc, ""), s)
  }

  lemma BeneathSnoc(front: seq<string>, last: string, s: string)
    ensures AnyBeneath(front + [last], s) <==> AnyBeneath(front, s) || Beneath(last, s)
  {
    var keys := front + [last];
    assert keys[|front|] == last && forall i | 0 <= i < |front| :: keys[i] == front[i];
  }

  /** What a document looks like after some prefix-free keys were set, in whatever order. */
  lemma {:induction false} ApplyFlat(doc: Doc, keys: seq<string>, values: Flat)
    requires Sound(doc, "") && PrefixFree(keys)
    requires forall i | 0 <= i < |keys| :: keys[i] in values && CanSet(doc, Split(keys[i]))
    ensures Apply(doc, keys, values).Some?
    ensures var d := Apply(doc, keys, values).value;
      Sound(d, "") && SameWays(d, doc, keys) && Overridden(d, doc, keys, values)
  {
    if keys != [] {
      var front, last := keys[..|keys| - 1], keys[|keys| - 1];
      assert keys == front + [last];
      ApplyFlat(doc, front, values);
      var before := Apply(doc, front, values).value;
      assert !AnyBeneath(front, last);
      WaysNext(doc, before, front, last, values);
      OverriddenNext(doc, before, front, last, values);
    }
  }

  lemma WaysNext(doc: Doc, before: Doc, front: seq<string>, last: string, values: Flat)
    requires Sound(before, "") && CanSet(before, Split(last)) && last in values && SameWays(before, doc, front)
    ensures var d := SetAt(before, Split(last), values[last]);
      Sound(d, "") && SameWays(d, doc, front + [last])
  {
    var d := SetAt(before, Split(last), values[last]);
    PathIsSplit(before, last);
    SetAtSound(before, "", Split(last), values[last]);
    forall p | !AnyBeneath(front + [last], p)
      ensures CanSet(d, Split(p)) <==> CanSet(doc, Split(p))
    {
      BeneathSnoc(front, last, p);
      SplitWithin(last, p);
      SetKeepsCanSet(before, Split(last), values[last], Split(p));
    }
  }

  lemma OverriddenNext(doc: Doc, before: Doc, front: seq<string>, last: string, values: Flat)
    requires Sound(before, "") && CanSet(before, Split(last)) && last in values
    requires PrefixFree(front + [last]) && forall i | 0 <= i < |front| :: front[i] in values
    requires Overridden(before, doc, front, values)
    ensures Overridden(SetAt(before, Split(last), values[last]), doc, front + [last], values)
  {
    var d, keys := SetAt(before, Split(last), values[last]), front + [last];
    PathIsSplit(before, last);
    forall s
      ensures Get(Flatten(d, ""), s)
        == if s in keys then Some(values[s]) else if AnyBeneath(keys, s) then None else Get(Flatten(doc, ""), s)
    {
      SetAtFlat(before, "", Split(last), values[last], s);
      BeneathSnoc(front, last, s);
      if s in front {
        var i :| 0 <= i < |front| && front[i] == s;
        assert keys[|front|] == last && keys[i] == s && !Beneath(keys[|front|], keys[i]);
      }
    }
  }

  /** If some path cannot be set in the document, the updates fail, in whatever order. */
  lemma {:induction false} ApplyFails(doc: Doc, keys: seq<string>, values: Flat, k: string)
    requires Sound(doc, "") && PrefixFree(keys) && k in keys && !CanSet(doc, Split(k))
    requires forall i | 0 <= i < |keys| :: keys[i] in values
    ensures Apply(doc, keys, values).None?
  {
    var front, last := keys[..|keys| - 1], keys[|keys| - 1];
    assert keys == front + [last];
    if l :| l in front && !CanSet(doc, Split(l)) {
      ApplyFails(doc, front, values, l);
    } else {
      ApplyFlat(doc, front, values);
      assert !AnyBeneath(front, last);
    }
  }

  // ----- the treatment's keys -----

  /** No flattened key of a document continues another one. */
  lemma {:induction false} FlatPrefixFree(doc: Doc, prefix: string, s: string, t: string)
    requires Sound(doc, prefix) && s in Flatten(doc, prefix) && t in Flatten(doc, prefix)
    ensures !Beneath(s, t)
    decreases doc
  {
    SoundTail(doc, prefix);
    var key, val := doc[0].key, doc[0].val;
    var first, rest := FlattenEntry(key, val, prefix), Flatten(doc[1..], prefix);
    if s in rest && t in rest {
      FlatPrefixFree(doc[1..], prefix, s, t);
    } else if s in first && t in first && val.Dict? {
      FlatPrefixFree(val.doc, Path(prefix, key), s, t);
    } else if s in first && t in rest {
      FlatUnderEntry(key, val, prefix, s);
      if Beneath(s, t) {
        UnderDeeper(Path(prefix, key), s, t);
        NothingUnder(doc[1..], prefix, key, t);
      }
    } else if s in rest && t in first {
      FlatUnderEntry(key, val, prefix, t);
      if Beneath(s, t) {
        EntryAbove(doc[1..], prefix, key, s, t);
      }
    }
  }

  /** A flattened key of other items does not lie above one of this item. */
  lemma {:induction false} EntryAbove(doc: Doc, prefix: string, key: string, s: string, t: string)
    requires Sound(doc, prefix) && DotFree(key) && !HasKey(doc, key)
    requires s in Flatten(doc, prefix) && Under(Path(prefix, key), t)
    ensures !Beneath(s, t)
  {
    SoundTail(doc, prefix);
    NotInTail(doc, key);
    if s in Flatten(doc[1..], prefix) {
      EntryAbove(doc[1..], prefix, key, s, t);
    } else {
      FlatUnderEntry(doc[0].key, doc[0].val, prefix, s);
      if Beneath(s, t) {
        UnderDeeper(Path(prefix, doc[0].key), s, t);
        SiblingsApart(prefix, key, doc[0].key, t);
      }
    }
  }

  /** Some order of all keys of the treatment. */
  ghost predicate Enumerates(order: seq<string>, treatment: map<string, Option<Atom>>) {
    && (forall k :: k in order <==> k in treatment)
    && (forall i, j | 0 <= i < j < |order| :: order[i] != order[j])
  }

  lemma TreatmentPrefixFree(exampleBase: Doc, exampleTreated: Doc, order: seq<string>)
    requires Sound(exampleTreated, "") && !Removes(DeltaOf(exampleBase, exampleTreated))
    requires Enumerates(order, DeltaOf(exampleBase, exampleTreated))
    ensures PrefixFree(order)
    ensures forall i | 0 <= i < |order| :: order[i] in Values(DeltaOf(exampleBase, exampleTreated))
  {
    var treatment := DeltaOf(exampleBase, exampleTreated);
    forall i | 0 <= i < |order|
      ensures order[i] in Flatten(exampleTreated, "") && order[i] in Values(treatment)
    {
      assert order[i] in order && order[i] in treatment;
      DeltaKeys(Flatten(exampleBase, ""), Flatten(exampleTreated, ""), order[i]);
    }
    forall i, j | 0 <= i < |order| && 0 <= j < |order|
      ensures !Beneath(order[i], order[j])
    {
      FlatPrefixFree(exampleTreated, "", order[i], order[j]);
    }
  }

  // ----- derive -----

  /** The updates on a copy of the new base, and the checks after them. */
  function ApplyChecked(exampleTreated: Doc, newBase: Doc, treatment: map<string, Option<Atom>>, allow: set<string>,
                        order: seq<string>): Outcome<Doc>
    requires forall i | 0 <= i < |order| :: order[i] in Values(treatment)
  {
    var out := Apply(newBase, order, Values(treatment));
    if out.None? then NotAMapping
    else if DeltaOf(newBase, out.value).Keys != treatment.Keys then WrongKeysApplied
    else if DriftsBeyond(DeltaOf(exampleTreated, out.value), allow) then Residual
    else Derived(out.value)
  }

  /** The whole function, for an order in which the treatment's keys are visited. */
  function DeriveIn(exampleBase: Doc, exampleTreated: Doc, newBase: Doc, allow: set<string>,
                    order: seq<string>): Outcome<Doc>
    requires forall i | 0 <= i < |order| ::
      order[i] in DeltaOf(exampleBase, exampleTreated)
  {
    var treatment := DeltaOf(exampleBase, exampleTreated);
    if treatment == map[] then NoTreatment
    else if Removes(treatment) then RemovesKeys
    else if Carries(treatment, Flatten(newBase, "")) then AlreadyTreated
    else if DriftsBeyond(DeltaOf(exampleBase, newBase), allow) then UnexpectedDrift
    else ApplyChecked(exampleTreated, newBase, treatment, allow, order)
  }

  /** A treated key at which the new base holds a mapping with something in it. */
  ghost predicate Overwrites(treatment: map<string, Option<Atom>>, flat: Flat) {
    exists k, s :: k in treatment && s in flat && Beneath(k, s)
  }

  ghost predicate AllSettable(treatment: map<string, Option<Atom>>, doc: Doc) {
    forall k | k in treatment :: CanSet(doc, Split(k))
  }

  lemma SetKeysNotBeneath(order: seq<string>, s: string)
    requires PrefixFree(order)
    ensures s in order ==> !AnyBeneath(order, s)
  {
  }

  lemma NotOverwritten(order: seq<string>, treatment: map<string, Option<Atom>>, flat: Flat, s: string)
    requires Enumerates(order, treatment) && !Overwrites(treatment, flat)
    ensures s in flat ==> !AnyBeneath(order, s)
  {
    assert forall i | 0 <= i < |order| :: order[i] in order;
  }

  /** The first post-check passes exactly when no treated key overwrites a mapping that holds something. */
  lemma AppliedKeys(newBase: Doc, out: Doc, order: seq<string>, treatment: map<string, Option<Atom>>)
    requires Enumerates(order, treatment) && forall k | k in order :: k in Values(treatment)
    requires PrefixFree(order) && !Carries(treatment, Flatten(newBase, ""))
    requires Overridden(out, newBase, order, Values(treatment))
    ensures DeltaOf(newBase, out).Keys == treatment.Keys <==> !Overwrites(treatment, Flatten(newBase, ""))
  {
    var before, after := Flatten(newBase, ""), Flatten(out, "");
    forall s
      ensures s in order ==> s in DeltaOf(newBase, out)
      ensures s !in order ==> (s in DeltaOf(newBase, out) <==> s in before && AnyBeneath(order, s))
    {
      DeltaKeys(before, after, s);
    }
    if Overwrites(treatment, before) {
      var k, s :| k in treatment && s in before && Beneath(k, s);
      var i :| 0 <= i < |order| && order[i] == k;
      SetKeysNotBeneath(order, s);
      assert AnyBeneath(order, s) && s !in order;
      assert s in DeltaOf(newBase, out).Keys && s !in treatment.Keys;
    } else {
      forall s | s in before
        ensures !AnyBeneath(order, s)
      {
        NotOverwritten(order, treatment, before, s);
      }
      assert forall s :: s in DeltaOf(newBase, out).Keys <==> s in treatment.Keys;
    }
  }

  /** The second post-check can then not fire. */
  lemma NoResidual(exampleBase: Doc, exampleTreated: Doc, newBase: Doc, allow: set<string>, out: Doc,
                   order: seq<string>)
    requires PreChecks(exampleBase, exampleTreated, newBase, allow)
    requires var treatment := DeltaOf(exampleBase, exampleTreated);
      && Enumerates(order, treatment) && (forall k | k in order :: k in Values(treatment))
      && Overridden(out, newBase, order, Values(treatment)) && !Overwrites(treatment, Flatten(newBase, ""))
    ensures !DriftsBeyond(DeltaOf(exampleTreated, out), allow)
    ensures Flatten(out, "") == Flatten(newBase, "") + Values(DeltaOf(exampleBase, exampleTreated))
  {
    var treatment := DeltaOf(exampleBase, exampleTreated);
    var eb, et := Flatten(exampleBase, ""), Flatten(exampleTreated, "");
    var nb, after := Flatten(newBase, ""), Flatten(out, "");
    forall s
      ensures Get(after, s) == Get(nb + Values(treatment), s)
      ensures s !in allow ==> Get(et, s) == Get(after, s)
    {
      DeltaKeys(eb, et, s);
      DeltaKeys(eb, nb, s);
      NotOverwritten(order, treatment, nb, s);
    }
    SameGets(after, nb + Values(treatment));
    assert forall s | s in DeltaOf(exampleTreated, out) :: s in allow by {
      forall s {
        DeltaKeys(et, after, s);
      }
    }
  }

  /** Once the checks before the updates pass, only two things can still go wrong, and each exactly when the new base
      itself shows it: a treated path without its mappings, or a treated path that is a mapping. In every other case
      the result flattens to the new base overridden by the treatment, whatever the order of the updates. */
  lemma DeriveAfterPreChecks(exampleBase: Doc, exampleTreated: Doc, newBase: Doc, allow: set<string>,
                             order: seq<string>)
    requires Sound(exampleTreated, "") && Sound(newBase, "")
    requires PreChecks(exampleBase, exampleTreated, newBase, allow)
    requires Enumerates(order, DeltaOf(exampleBase, exampleTreated))
    ensures forall i | 0 <= i < |order| :: order[i] in DeltaOf(exampleBase, exampleTreated)
    ensures var treatment, flat := DeltaOf(exampleBase, exampleTreated), Flatten(newBase, "");
      var r := DeriveIn(exampleBase, exampleTreated, newBase, allow, order);
      && (r.NotAMapping? <==> !AllSettable(treatment, newBase))
      && (r.WrongKeysApplied? <==> AllSettable(treatment, newBase) && Overwrites(treatment, flat))
      && (r.Derived? <==> AllSettable(treatment, newBase) && !Overwrites(treatment, flat))
      && (r.Derived? ==> Flatten(r.doc, "") == flat + Values(treatment))
  {
    var treatment := DeltaOf(exampleBase, exampleTreated);
    assert forall i | 0 <= i < |order| :: order[i] in order;
    TreatmentPrefixFree(exampleBase, exampleTreated, order);
    if AllSettable(treatment, newBase) {
      ApplyFlat(newBase, order, Values(treatment));
      var out := Apply(newBase, order, Values(treatment)).value;
      AppliedKeys(newBase, out, order, treatment);
      if !Overwrites(treatment, Flatten(newBase, "")) {
        NoResidual(exampleBase, exampleTreated, newBase, allow, out, order);
      }
    } else {
      var k :| k in treatment && !CanSet(newBase, Split(k));
      ApplyFails(newBase, order, Values(treatment), k);
    }
  }

  // ----- the outcomes on flattened documents -----

  /** Some order of the keys on which two flattened documents differ. */
  ghost predicate OrdersDifferences(order: seq<string>, before: Flat, after: Flat) {
    && (forall k :: k in order <==> Get(before, k) != Get(after, k))
    && (forall i, j | 0 <= i < j < |order| :: order[i] != order[j])
  }

  lemma OrderEnumerates(order: seq<string>, exampleBase: Doc, exampleTreated: Doc)
    ensures OrdersDifferences(order, Flatten(exampleBase, ""), Flatten(exampleTreated, ""))
       <==> Enumerates(order, DeltaOf(exampleBase, exampleTreated))
  {
    hide Flatten;
    var eb, et := Flatten(exampleBase, ""), Flatten(exampleTreated, "");
    forall k
      ensures k in DeltaOf(exampleBase, exampleTreated) <==> Get(eb, k) != Get(et, k)
    {
      DeltaKeys(eb, et, k);
    }
  }

  /** The first three errors, in terms of what the flattened documents hold. */
  lemma ErrorsBeforeDrift(exampleBase: Doc, exampleTreated: Doc, newBase: Doc)
    ensures var treatment := DeltaOf(exampleBase, exampleTreated);
      var eb, et, nb := Flatten(exampleBase, ""), Flatten(exampleTreated, ""), Flatten(newBase, "");
      && (treatment == map[] <==> eb == et)
      && (Removes(treatment) <==> exists k :: k in eb && k !in et)
      && (Carries(treatment, nb) <==> exists k :: k in nb && Get(eb, k) != Get(et, k) && Get(et, k) == Some(nb[k]))
  {
    hide Flatten;
    var treatment := DeltaOf(exampleBase, exampleTreated);
    var eb, et, nb := Flatten(exampleBase, ""), Flatten(exampleTreated, ""), Flatten(newBase, "");
    forall k
      ensures k in treatment <==> Get(eb, k) != Get(et, k)
      ensures k in treatment ==> treatment[k] == Get(et, k)
    {
      DeltaKeys(eb, et, k);
    }
    SameGets(eb, et);
    if k :| k in eb && k !in et {
      assert k in treatment && treatment[k].None?;
    }
    if k :| k in nb && Get(eb, k) != Get(et, k) && Get(et, k) == Some(nb[k]) {
      assert k in treatment && k in nb && treatment[k] == Some(nb[k]);
    }
    if Carries(treatment, nb) {
      var k :| k in treatment && k in nb && treatment[k] == Some(nb[k]);
      assert Get(eb, k) != Get(et, k);
    }
  }

  lemma DriftOnFlat(d: Doc, e: Doc, allow: set<string>)
    ensures DriftsBeyond(DeltaOf(d, e), allow)
       <==> exists k :: k !in allow && Get(Flatten(d, ""), k) != Get(Flatten(e, ""), k)
  {
    hide Flatten;
    var drift := DeltaOf(d, e);
    forall k
      ensures k in drift <==> Get(Flatten(d, ""), k) != Get(Flatten(e, ""), k)
    {
      DeltaKeys(Flatten(d, ""), Flatten(e, ""), k);
    }
    if k :| k !in allow && Get(Flatten(d, ""), k) != Get(Flatten(e, ""), k) {
      assert k in drift && k !in allow;
    }
  }

  /** Which error is raised before anything is changed, read off the flattened documents: no treatment if the examples
      agree, removal if the treated one lacks a key, already treated if the new base holds the treated value of a key on
      which they differ, drift if it differs from the example base where it may not. */
  ghost predicate StopsEarly<T>(r: Outcome<T>, eb: Flat, et: Flat, nb: Flat, allow: set<string>) {
    var removes := exists k :: k in eb && k !in et;
    var already := exists k :: k in nb && Get(eb, k) != Get(et, k) && Get(et, k) == Some(nb[k]);
    var drifts := exists k :: k !in allow && Get(eb, k) != Get(nb, k);
    && (r.NoTreatment? <==> eb == et)
    && (r.RemovesKeys? <==> removes)
    && (r.AlreadyTreated? <==> eb != et && !removes && already)
    && (r.UnexpectedDrift? <==> eb != et && !removes && !already && drifts)
  }

  /** It only depends on which outcome it is. */
  lemma SameStops<S, T>(r: Outcome<S>, d: Outcome<T>, eb: Flat, et: Flat, nb: Flat, allow: set<string>)
    requires r.NoTreatment? <==> d.NoTreatment?
    requires r.RemovesKeys? <==> d.RemovesKeys?
    requires r.AlreadyTreated? <==> d.AlreadyTreated?
    requires r.UnexpectedDrift? <==> d.UnexpectedDrift?
    requires StopsEarly(d, eb, et, nb, allow)
    ensures StopsEarly(r, eb, et, nb, allow)
  {
  }

  lemma OutcomesBeforeUpdates(exampleBase: Doc, exampleTreated: Doc, newBase: Doc, allow: set<string>,
                              order: seq<string>)
    requires OrdersDifferences(order, Flatten(exampleBase, ""), Flatten(exampleTreated, ""))
    ensures forall i | 0 <= i < |order| :: order[i] in DeltaOf(exampleBase, exampleTreated)
    ensures StopsEarly(DeriveIn(exampleBase, exampleTreated, newBase, allow, order),
                       Flatten(exampleBase, ""), Flatten(exampleTreated, ""), Flatten(newBase, ""), allow)
  {
    OrderEnumerates(order, exampleBase, exampleTreated);
    assert forall i | 0 <= i < |order| :: order[i] in order;
    ErrorsBeforeDrift(exampleBase, exampleTreated, newBase);
    DriftOnFlat(exampleBase, newBase, allow);
    FirstError(exampleBase, exampleTreated, newBase, allow, order);
    hide *;
    StopsRead(DeriveIn(exampleBase, exampleTreated, newBase, allow, order), DeltaOf(exampleBase, exampleTreated),
              DeltaOf(exampleBase, newBase), Flatten(exampleBase, ""), Flatten(exampleTreated, ""),
              Flatten(newBase, ""), allow);
  }

  lemma FirstError(exampleBase: Doc, exampleTreated: Doc, newBase: Doc, allow: set<string>, order: seq<string>)
    requires forall i | 0 <= i < |order| :: order[i] in DeltaOf(exampleBase, exampleTreated)
    ensures var treatment, drift := DeltaOf(exampleBase, exampleTreated), DeltaOf(exampleBase, newBase);
      var r := DeriveIn(exampleBase, exampleTreated, newBase, allow, order);
      var none, removes := treatment == map[], Removes(treatment);
      var carries, drifts := Carries(treatment, Flatten(newBase, "")), DriftsBeyond(drift, allow);
      && (r.NoTreatment? <==> none) && (r.RemovesKeys? <==> !none && removes)
      && (r.AlreadyTreated? <==> !none && !removes && carries)
      && (r.UnexpectedDrift? <==> !none && !removes && !carries && drifts)
  {
    hide Flatten, Delta, Removes, Carries, DriftsBeyond, Apply;
  }

  lemma StopsRead(r: Outcome<Doc>, treatment: map<string, Option<Atom>>, drift: map<string, Option<Atom>>,
                  eb: Flat, et: Flat, nb: Flat, allow: set<string>)
    requires treatment == map[] <==> eb == et
    requires Removes(treatment) <==> exists k :: k in eb && k !in et
    requires Carries(treatment, nb) <==> exists k :: k in nb && Get(eb, k) != Get(et, k) && Get(et, k) == Some(nb[k])
    requires DriftsBeyond(drift, allow) <==> exists k :: k !in allow && Get(eb, k) != Get(nb, k)
    requires var none, removes := treatment == map[], Removes(treatment);
      var carries, drifts := Carries(treatment, nb), DriftsBeyond(drift, allow);
      && (r.NoTreatment? <==> none) && (r.RemovesKeys? <==> !none && removes)
      && (r.AlreadyTreated? <==> !none && !removes && carries)
      && (r.UnexpectedDrift? <==> !none && !removes && !carries && drifts)
    ensures StopsEarly(r, eb, et, nb, allow)
  {
    hide Removes, Carries, DriftsBeyond;
    assert (exists k :: k in eb && k !in et) ==> eb != et;
  }

  /** And after that: a changed key whose path leads through something that is no mapping, a changed key that is a
      mapping in the new base, or a document that holds the treated value at every changed key and is otherwise the
      new base. The last check never fires. */
  lemma OutcomesOfUpdates(exampleBase: Doc, exampleTreated: Doc, newBase: Doc, allow: set<string>,
                          order: seq<string>)
    requires Sound(exampleTreated, "") && Sound(newBase, "")
    requires OrdersDifferences(order, Flatten(exampleBase, ""), Flatten(exampleTreated, ""))
    ensures forall i | 0 <= i < |order| :: order[i] in DeltaOf(exampleBase, exampleTreated)
    ensures var eb, et, nb := Flatten(exampleBase, ""), Flatten(exampleTreated, ""), Flatten(newBase, "");
      var r := DeriveIn(exampleBase, exampleTreated, newBase, allow, order);
      var passes := !r.NoTreatment? && !r.RemovesKeys? && !r.AlreadyTreated? && !r.UnexpectedDrift?;
      var blocked := exists k :: Get(eb, k) != Get(et, k) && !CanSet(newBase, Split(k));
      var covers := exists k, s :: Get(eb, k) != Get(et, k) && s in nb && Beneath(k, s);
      && (r.NotAMapping? <==> passes && blocked)
      && (r.WrongKeysApplied? <==> passes && !blocked && covers)
      && (r.Derived? <==> passes && !blocked && !covers)
      && (r.Derived? ==>
            forall k :: Get(Flatten(r.doc, ""), k) == Get(if Get(eb, k) != Get(et, k) then et else nb, k))
  {
    OrderEnumerates(order, exampleBase, exampleTreated);
    OutcomesBeforeUpdates(exampleBase, exampleTreated, newBase, allow, order);
    var treatment := DeltaOf(exampleBase, exampleTreated);
    var eb, et, nb := Flatten(exampleBase, ""), Flatten(exampleTreated, ""), Flatten(newBase, "");
    var r := DeriveIn(exampleBase, exampleTreated, newBase, allow, order);
    hide Flatten, OrdersDifferences, Enumerates, DeriveIn, StopsEarly;
    PassesMeansChecked(exampleBase, exampleTreated, newBase, allow, order);
    if PreChecks(exampleBase, exampleTreated, newBase, allow) {
      DeriveAfterPreChecks(exampleBase, exampleTreated, newBase, allow, order);
      hide Delta, Values, PreChecks, Overwrites, AllSettable;
      TreatedValues(eb, et, nb);
      SettableOnFlat(exampleBase, exampleTreated, newBase);
      OverwritesOnFlat(exampleBase, exampleTreated, newBase);
    }
  }

  lemma TreatedValues(eb: Flat, et: Flat, nb: Flat)
    requires !Removes(Delta(eb, et))
    ensures forall k :: Get(nb + Values(Delta(eb, et)), k) == Get(if Get(eb, k) != Get(et, k) then et else nb, k)
  {
    forall k
      ensures Get(nb + Values(Delta(eb, et)), k) == Get(if Get(eb, k) != Get(et, k) then et else nb, k)
    {
      DeltaKeys(eb, et, k);
    }
  }

  lemma PassesMeansChecked(exampleBase: Doc, exampleTreated: Doc, newBase: Doc, allow: set<string>, order: seq<string>)
    requires forall i | 0 <= i < |order| :: order[i] in DeltaOf(exampleBase, exampleTreated)
    ensures var r := DeriveIn(exampleBase, exampleTreated, newBase, allow, order);
      PreChecks(exampleBase, exampleTreated, newBase, allow)
      <==> !r.NoTreatment? && !r.RemovesKeys? && !r.AlreadyTreated? && !r.UnexpectedDrift?
  {
    hide Flatten, Delta, Removes, Carries, DriftsBeyond, Apply;
  }

  lemma SettableOnFlat(exampleBase: Doc, exampleTreated: Doc, newBase: Doc)
    ensures var eb, et := Flatten(exampleBase, ""), Flatten(exampleTreated, "");
      !AllSettable(DeltaOf(exampleBase, exampleTreated), newBase)
      <==> exists k :: Get(eb, k) != Get(et, k) && !CanSet(newBase, Split(k))
  {
    hide Flatten, Delta;
    var treatment := DeltaOf(exampleBase, exampleTreated);
    var eb, et := Flatten(exampleBase, ""), Flatten(exampleTreated, "");
    forall k
      ensures k in treatment <==> Get(eb, k) != Get(et, k)
    {
      DeltaKeys(eb, et, k);
    }
    if AllSettable(treatment, newBase) {
      forall k | Get(eb, k) != Get(et, k)
        ensures CanSet(newBase, Split(k))
      {
        assert k in treatment;
      }
    } else {
      var k :| k in treatment && !CanSet(newBase, Split(k));
      assert Get(eb, k) != Get(et, k) && !CanSet(newBase, Split(k));
    }
  }

  lemma OverwritesOnFlat(exampleBase: Doc, exampleTreated: Doc, newBase: Doc)
    ensures var eb, et, nb := Flatten(exampleBase, ""), Flatten(exampleTreated, ""), Flatten(newBase, "");
      Overwrites(DeltaOf(exampleBase, exampleTreated), nb)
      <==> exists k, s :: Get(eb, k) != Get(et, k) && s in nb && Beneath(k, s)
  {
    hide Flatten;
    var treatment, nb := DeltaOf(exampleBase, exampleTreated), Flatten(newBase, "");
    var eb, et := Flatten(exampleBase, ""), Flatten(exampleTreated, "");
    forall k
      ensures k in treatment <==> Get(eb, k) != Get(et, k)
    {
      DeltaKeys(eb, et, k);
    }
    if k, s :| Get(eb, k) != Get(et, k) && s in nb && Beneath(k, s) {
      assert k in treatment;
    }
    if Overwrites(treatment, nb) {
      var k, s :| k in treatment && s in nb && Beneath(k, s);
      assert Get(eb, k) != Get(et, k);
    }
  }

  /** Derived for the very base of the example, the treatment gives back the treated example. */
  lemma DeriveOnExample(exampleBase: Doc, exampleTreated: Doc, allow: set<string>, order: seq<string>)
    requires Sound(exampleTreated, "") && Sound(exampleBase, "")
    requires OrdersDifferences(order, Flatten(exampleBase, ""), Flatten(exampleTreated, ""))
    requires var eb, et := Flatten(exampleBase, ""), Flatten(exampleTreated, "");
      && eb != et && eb.Keys <= et.Keys
      && (forall k | Get(eb, k) != Get(et, k) :: CanSet(exampleBase, Split(k)))
      && (forall k, s | Get(eb, k) != Get(et, k) && s in eb :: !Beneath(k, s))
    ensures forall i | 0 <= i < |order| :: order[i] in DeltaOf(exampleBase, exampleTreated)
    ensures var r := DeriveIn(exampleBase, exampleTreated, exampleBase, allow, order);
      r.Derived? && Flatten(r.doc, "") == Flatten(exampleTreated, "")
  {
    OutcomesBeforeUpdates(exampleBase, exampleTreated, exampleBase, allow, order);
    OutcomesOfUpdates(exampleBase, exampleTreated, exampleBase, allow, order);
    hide Flatten, CanSet, Beneath;
    var r := DeriveIn(exampleBase, exampleTreated, exampleBase, allow, order);
    assert r.Derived?;
    SameGets(Flatten(r.doc, ""), Flatten(exampleTreated, ""));
  }

  // ----- an instance where a post-check fires -----

  /** The treatment sets "a", where the new base has {"a": {"b": v}}, a difference that is allowed. */
  lemma PostCheckCanFire(one: Atom, v: Atom)
    ensures var base, treated, newBase := [], [Item("a", Leaf(one))], NestedDoc(v);
      && Sound(treated, "") && Sound(newBase, "") && PreChecks(base, treated, newBase, {"a.b"})
      && Enumerates(["a"], DeltaOf(base, treated))
      && DeriveIn(base, treated, newBase, {"a.b"}, ["a"]).WrongKeysApplied?
  {
    var base, treated, newBase: Doc := [], [Item("a", Leaf(one))], NestedDoc(v);
    NestedFlat(v);
    SplitSingle();
    assert treated[1..] == [];
    assert Flatten(treated, "") == map["a" := one];
    var treatment := DeltaOf(base, treated);
    assert treatment == map["a" := Some(one)];
    assert DeltaOf(base, newBase) == map["a.b" := Some(v)];
    assert Flatten(newBase, "") == map["a.b" := v];
    assert "a" in treatment && "a.b" in Flatten(newBase, "");
    assert Overwrites(treatment, Flatten(newBase, ""));
    assert Enumerates(["a"], treatment);
    DeriveAfterPreChecks(base, treated, newBase, {"a.b"}, ["a"]);
  }
}
