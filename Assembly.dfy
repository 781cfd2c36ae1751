/**
 * What the selection loop of `crearCuestionario` computes, as a function of
 * its inputs: which requested keys become selections, with which text,
 * alternatives, time and required flag, and where the loop stops on error.
 */
module Assembly {
  import opened Wrappers
  import opened Json
  import opened Keys

  /** Row identifiers (the database's generated keys). */
  type Id = nat

  /**
   * The question-selection arguments of `crearCuestionario`: the bank entry,
   * the requested keys, and the parallel lists of times and required flags.
   */
  datatype Request = Request(bankId: Id, keys: seq<string>, times: seq<int>, required: seq<bool>)

  /** The content of one selection before it is given an identifier. */
  datatype Draft = Draft(text: string, alternatives: Json, time: int, required: bool)

  /** The selections saved by the loop so far and whether it has thrown. */
  datatype Progress = Progress(drafts: seq<Draft>, failed: bool)

  /** The key at index i names a question of the bank entry. */
  predicate Present(bank: Object, keys: seq<string>, i: nat)
    requires i < |keys|
  {
    Lookup(bank, keys[i]).Some?
  }

  /** A present key at index i is processed without throwing. */
  predicate Usable(bank: Object, req: Request, i: nat)
    requires i < |req.keys|
  {
    Present(bank, req.keys, i) && KeyIndex(req.keys[i]).Some? &&
    i < |req.times| && i < |req.required|
  }

  /** The selection made for a usable key at index i. */
  function DraftAt(bank: Object, req: Request, alternativesOf: (Id, int) -> Object, i: nat): Draft
    requires i < |req.keys| && Usable(bank, req, i)
  {
    Draft(Lookup(bank, req.keys[i]).value,
          Serialize(alternativesOf(req.bankId, KeyIndex(req.keys[i]).value)),
          req.times[i], req.required[i])
  }

  /**
   * The state of the loop after the indices below n: a missing key is
   * skipped, a usable one adds its selection, and any other present key
   * throws and ends the loop.
   */
  function Assembled(bank: Object, req: Request, alternativesOf: (Id, int) -> Object, n: nat): (p: Progress)
    requires n <= |req.keys|
    ensures |p.drafts| <= n
  {
    if n == 0 then Progress([], false)
    else
      var p := Assembled(bank, req, alternativesOf, n - 1);
      if p.failed || !Present(bank, req.keys, n - 1) then p
      else if !Usable(bank, req, n - 1) then Progress(p.drafts, true)
      else Progress(p.drafts + [DraftAt(bank, req, alternativesOf, n - 1)], false)
  }

  /** One step of the loop: a key missing from the bank entry is skipped. */
  lemma SkipStep(bank: Object, req: Request, alternativesOf: (Id, int) -> Object, i: nat, made: seq<Draft>)
    requires i < |req.keys| && Assembled(bank, req, alternativesOf, i) == Progress(made, false)
    requires Lookup(bank, req.keys[i]).None?
    ensures Assembled(bank, req, alternativesOf, i + 1) == Progress(made, false)
  {
  }

  /** One step of the loop: a usable key adds its selection. */
  lemma KeepStep(bank: Object, req: Request, alternativesOf: (Id, int) -> Object, i: nat, made: seq<Draft>,
                 text: string, index: int)
    requires i < |req.keys| && Assembled(bank, req, alternativesOf, i) == Progress(made, false)
    requires Lookup(bank, req.keys[i]) == Some(text) && KeyIndex(req.keys[i]) == Some(index)
    requires i < |req.times| && i < |req.required|
    ensures Assembled(bank, req, alternativesOf, i + 1) ==
            Progress(made + [Draft(text, Serialize(alternativesOf(req.bankId, index)), req.times[i], req.required[i])], false)
  {
  }

  /** One step of the loop: a present key that cannot be processed ends it with a failure. */
  lemma FailStep(bank: Object, req: Request, alternativesOf: (Id, int) -> Object, i: nat, made: seq<Draft>)
    requires i < |req.keys| && Assembled(bank, req, alternativesOf, i) == Progress(made, false)
    requires Lookup(bank, req.keys[i]).Some?
    requires KeyIndex(req.keys[i]).None? || i >= |req.times| || i >= |req.required|
    ensures Assembled(bank, req, alternativesOf, |req.keys|) == Progress(made, true)
  {
    FailureIsFinal(bank, req, alternativesOf, i + 1, |req.keys|);
  }

  /** The indices below n whose keys are present in the bank entry, in increasing order. */
  function Kept(bank: Object, keys: seq<string>, n: nat): (ks: seq<nat>)
    requires n <= |keys|
    ensures forall j :: 0 <= j < |ks| ==> ks[j] < n && Present(bank, keys, ks[j])
    ensures forall j, l :: 0 <= j < l < |ks| ==> ks[j] < ks[l]
    ensures forall i :: 0 <= i < n && Present(bank, keys, i) ==> i in ks
  {
    if n == 0 then []
    else if Present(bank, keys, n - 1) then Kept(bank, keys, n - 1) + [n - 1]
    else Kept(bank, keys, n - 1)
  }

  /** Every present key below n is processed without throwing. */
  predicate UsableBelow(bank: Object, req: Request, n: nat)
    requires n <= |req.keys|
  {
    forall i :: 0 <= i < n && Present(bank, req.keys, i) ==> Usable(bank, req, i)
  }

  /** f is the first index below n at which the loop throws. */
  predicate FirstFailure(bank: Object, req: Request, n: nat, f: nat)
    requires n <= |req.keys|
  {
    f < n && Present(bank, req.keys, f) && !Usable(bank, req, f) && UsableBelow(bank, req, f)
  }

  /** The drafts are, one for one and in order, the selections for the indices ks. */
  predicate Matches(bank: Object, req: Request, alternativesOf: (Id, int) -> Object, ds: seq<Draft>, ks: seq<nat>)
  {
    |ds| == |ks| &&
    forall j :: 0 <= j < |ds| ==>
      ks[j] < |req.keys| && Usable(bank, req, ks[j]) && ds[j] == DraftAt(bank, req, alternativesOf, ks[j])
  }

  /** Matching drafts extended by the selection of one more usable index. */
  lemma MatchesAppend(bank: Object, req: Request, alternativesOf: (Id, int) -> Object, ds: seq<Draft>, ks: seq<nat>, i: nat)
    requires Matches(bank, req, alternativesOf, ds, ks)
    requires i < |req.keys| && Usable(bank, req, i)
    ensures Matches(bank, req, alternativesOf, ds + [DraftAt(bank, req, alternativesOf, i)], ks + [i])
  {
  }

  /**
   * What the loop state after the indices below n means. Without a failure,
   * every present key below n was usable and the selections are those of the
   * present keys in request order. With a failure, there is a first present
   * key that could not be processed, and the selections are those of the
   * present keys before it.
   */
  ghost predicate Explained(bank: Object, req: Request, alternativesOf: (Id, int) -> Object, n: nat)
    requires n <= |req.keys|
  {
    var p := Assembled(bank, req, alternativesOf, n);
    (!p.failed ==> UsableBelow(bank, req, n) && Matches(bank, req, alternativesOf, p.drafts, Kept(bank, req.keys, n))) &&
    (p.failed ==> exists f :: FirstFailure(bank, req, n, f) &&
                              Matches(bank, req, alternativesOf, p.drafts, Kept(bank, req.keys, f)))
  }

  /** After a failure, one more index leaves the explanation as it was. */
  lemma ExplainedAfterFailure(bank: Object, req: Request, alternativesOf: (Id, int) -> Object, n: nat)
    requires 0 < n <= |req.keys| && Explained(bank, req, alternativesOf, n - 1)
    requires Assembled(bank, req, alternativesOf, n - 1).failed
    ensures Explained(bank, req, alternativesOf, n)
  {
    var p := Assembled(bank, req, alternativesOf, n - 1);
    assert Assembled(bank, req, alternativesOf, n) == p;
    var f :| FirstFailure(bank, req, n - 1, f) &&
             Matches(bank, req, alternativesOf, p.drafts, Kept(bank, req.keys, f));
    assert FirstFailure(bank, req, n, f);
  }

  /** A missing key keeps the explanation: it is neither kept nor a failure. */
  lemma ExplainedSkip(bank: Object, req: Request, alternativesOf: (Id, int) -> Object, n: nat)
    requires 0 < n <= |req.keys| && Explained(bank, req, alternativesOf, n - 1)
    requires !Assembled(bank, req, alternativesOf, n - 1).failed && !Present(bank, req.keys, n - 1)
    ensures Explained(bank, req, alternativesOf, n)
  {
    var p := Assembled(bank, req, alternativesOf, n - 1);
    assert Assembled(bank, req, alternativesOf, n) == p;
    assert Kept(bank, req.keys, n) == Kept(bank, req.keys, n - 1);
    assert UsableBelow(bank, req, n);
  }

  /** A present unusable key is the first failure. */
  lemma ExplainedFail(bank: Object, req: Request, alternativesOf: (Id, int) -> Object, n: nat)
    requires 0 < n <= |req.keys| && Explained(bank, req, alternativesOf, n - 1)
    requires !Assembled(bank, req, alternativesOf, n - 1).failed
    requires Present(bank, req.keys, n - 1) && !Usable(bank, req, n - 1)
    ensures Explained(bank, req, alternativesOf, n)
  {
    var p := Assembled(bank, req, alternativesOf, n - 1);
    assert Assembled(bank, req, alternativesOf, n) == Progress(p.drafts, true);
    assert FirstFailure(bank, req, n, n - 1);
  }

  /** A usable key is kept, with its own selection appended. */
  lemma ExplainedKeep(bank: Object, req: Request, alternativesOf: (Id, int) -> Object, n: nat)
    requires 0 < n <= |req.keys| && Explained(bank, req, alternativesOf, n - 1)
    requires !Assembled(bank, req, alternativesOf, n - 1).failed && Usable(bank, req, n - 1)
    ensures Explained(bank, req, alternativesOf, n)
  {
    var p := Assembled(bank, req, alternativesOf, n - 1);
    var ks := Kept(bank, req.keys, n - 1);
    assert Assembled(bank, req, alternativesOf, n) == Progress(p.drafts + [DraftAt(bank, req, alternativesOf, n - 1)], false);
    assert Kept(bank, req.keys, n) == ks + [n - 1];
    MatchesAppend(bank, req, alternativesOf, p.drafts, ks, n - 1);
    assert UsableBelow(bank, req, n);
  }

  /** The meaning of the loop: every loop state is explained as `Explained` says. */
  lemma {:induction false} AssembledSpec(bank: Object, req: Request, alternativesOf: (Id, int) -> Object, n: nat)
    requires n <= |req.keys|
    ensures var p := Assembled(bank, req, alternativesOf, n);
      !p.failed ==> UsableBelow(bank, req, n) && Matches(bank, req, alternativesOf, p.drafts, Kept(bank, req.keys, n))
    ensures var p := Assembled(bank, req, alternativesOf, n);
      p.failed ==> exists f :: FirstFailure(bank, req, n, f) &&
                               Matches(bank, req, alternativesOf, p.drafts, Kept(bank, req.keys, f))
  {
    if n > 0 {
      AssembledSpec(bank, req, alternativesOf, n - 1);
      assert Explained(bank, req, alternativesOf, n - 1);
      var p := Assembled(bank, req, alternativesOf, n - 1);
      if p.failed {
        ExplainedAfterFailure(bank, req, alternativesOf, n);
      } else if !Present(bank, req.keys, n - 1) {
        ExplainedSkip(bank, req, alternativesOf, n);
      } else if !Usable(bank, req, n - 1) {
        ExplainedFail(bank, req, alternativesOf, n);
      } else {
        ExplainedKeep(bank, req, alternativesOf, n);
      }
      assert Explained(bank, req, alternativesOf, n);
    }
  }

  /** Once the loop has thrown, the later indices change nothing. */
  lemma {:induction false} FailureIsFinal(bank: Object, req: Request, alternativesOf: (Id, int) -> Object, i: nat, n: nat)
    requires i <= n <= |req.keys|
    requires Assembled(bank, req, alternativesOf, i).failed
    ensures Assembled(bank, req, alternativesOf, n) == Assembled(bank, req, alternativesOf, i)
  {
    if n > i {
      FailureIsFinal(bank, req, alternativesOf, i, n - 1);
    }
  }

  /** With every key present, the kept indices are all the indices. */
  lemma {:induction false} KeptAll(bank: Object, keys: seq<string>, n: nat)
    requires n <= |keys|
    requires forall i :: 0 <= i < n ==> Present(bank, keys, i)
    ensures |Kept(bank, keys, n)| == n
    ensures forall i :: 0 <= i < n ==> Kept(bank, keys, n)[i] == i
  {
    if n > 0 {
      KeptAll(bank, keys, n - 1);
      var k := Kept(bank, keys, n - 1);
      assert Present(bank, keys, n - 1);
      var k' := Kept(bank, keys, n);
      assert k' == k + [n - 1];
      assert |k'| == n;
      forall i | 0 <= i < n ensures k'[i] == i {
        if i < n - 1 {
          assert k'[i] == k[i];
        }
      }
    }
  }

  /**
   * When every requested key is present and usable, the quiz gets one
   * selection per key, in request order.
   */
  lemma EveryKeySelected(bank: Object, req: Request, alternativesOf: (Id, int) -> Object)
    requires forall i :: 0 <= i < |req.keys| ==> Usable(bank, req, i)
    ensures var p := Assembled(bank, req, alternativesOf, |req.keys|);
      !p.failed && |p.drafts| == |req.keys| &&
      forall i :: 0 <= i < |req.keys| ==> p.drafts[i] == DraftAt(bank, req, alternativesOf, i)
  {
    var n := |req.keys|;
    AssembledSpec(bank, req, alternativesOf, n);
    forall i | 0 <= i < n ensures Present(bank, req.keys, i) {
      assert Usable(bank, req, i);
    }
    KeptAll(bank, req.keys, n);
  }

  /**
   * A present key at an index the time or required list does not reach makes
   * the whole operation fail, and so does a present key without an index.
   */
  lemma UnusableKeyFails(bank: Object, req: Request, alternativesOf: (Id, int) -> Object, i: nat)
    requires i < |req.keys| && Present(bank, req.keys, i)
    requires KeyIndex(req.keys[i]).None? || i >= |req.times| || i >= |req.required|
    ensures Assembled(bank, req, alternativesOf, |req.keys|).failed
  {
    AssembledSpec(bank, req, alternativesOf, |req.keys|);
  }

  /**
   * The saved selections each stand for a present key, and each stores the
   * alternatives the lookup gave for that key's index: decoding them the way
   * the projection does and flattening gives back exactly those entries.
   */
  lemma StoredAlternativesRoundTrip(bank: Object, req: Request, alternativesOf: (Id, int) -> Object, n: nat, j: nat)
    requires n <= |req.keys|
    requires j < |Assembled(bank, req, alternativesOf, n).drafts|
    ensures var d := Assembled(bank, req, alternativesOf, n).drafts[j];
      exists i :: 0 <= i < n && Usable(bank, req, i) &&
        d.text == Lookup(bank, req.keys[i]).value &&
        d.time == req.times[i] && d.required == req.required[i] &&
        DecodeAlternatives(d.alternatives).Some? &&
        Flatten(DecodeAlternatives(d.alternatives).value) == alternativesOf(req.bankId, KeyIndex(req.keys[i]).value)
  {
    var p := Assembled(bank, req, alternativesOf, n);
    AssembledSpec(bank, req, alternativesOf, n);
    var ks;
    if p.failed {
      var f :| FirstFailure(bank, req, n, f) && Matches(bank, req, alternativesOf, p.drafts, Kept(bank, req.keys, f));
      ks := Kept(bank, req.keys, f);
    } else {
      ks := Kept(bank, req.keys, n);
    }
    var i := ks[j];
    AlternativesRoundTrip(alternativesOf(req.bankId, KeyIndex(req.keys[i]).value));
    assert i < n;
  }

  /** An entry holding "Pregunta 1" and "Pregunta 2", and a request for "Pregunta 1" and "Pregunta 3". */
  const ExampleEntry: Object := [("Pregunta 1", "What is 2+2?"), ("Pregunta 2", "Capital of France?")]
  const ExampleRequest: Request := Request(7, ["Pregunta 1", "Pregunta 3"], [30, 45], [true, false])

  /** In the example, the first requested key is present and the second is missing. */
  lemma ExampleLookups()
    ensures Lookup(ExampleEntry, ExampleRequest.keys[0]) == Some("What is 2+2?")
    ensures Lookup(ExampleEntry, ExampleRequest.keys[1]) == None
  {
    var e := ExampleEntry;
    assert e[..1] == [("Pregunta 1", "What is 2+2?")] && e[..1][..0] == [];
    assert e[1].0 != "Pregunta 1" by { assert e[1].0[9] != "Pregunta 1"[9]; }
    assert e[1].0 != "Pregunta 3" by { assert e[1].0[9] != "Pregunta 3"[9]; }
    assert e[0].0 != "Pregunta 3" by { assert e[0].0[9] != "Pregunta 3"[9]; }
  }

  /** In the example, the first requested key has alternatives index 1. */
  lemma ExampleIndex()
    ensures KeyIndex(ExampleRequest.keys[0]) == Some(1)
  {
    assert Decimal(1) == "1";
    IndexOfBankKey("Pregunta", 1, "");
    assert "Pregunta" + " " + Decimal(1) + "" == ExampleRequest.keys[0];
  }

  /**
   * A requested key missing from the entry is skipped: the example makes
   * exactly one selection, for "Pregunta 1", and no failure.
   */
  lemma MissingKeySkipped(alternativesOf: (Id, int) -> Object)
    ensures Assembled(ExampleEntry, ExampleRequest, alternativesOf, 2) ==
            Progress([Draft("What is 2+2?", Serialize(alternativesOf(7, 1)), 30, true)], false)
  {
    ExampleLookups();
    ExampleIndex();
    KeepStep(ExampleEntry, ExampleRequest, alternativesOf, 0, [], "What is 2+2?", 1);
    SkipStep(ExampleEntry, ExampleRequest, alternativesOf, 1, [Draft("What is 2+2?", Serialize(alternativesOf(7, 1)), 30, true)]);
  }
}
