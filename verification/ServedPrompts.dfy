/**
 From a promotion to the prompt the proxy forwards: the variant part of ServeHTTP (internal/proxy/handler.go) on what
 the layered store hands out, for the variants Promote writes and the template the optimiser infers from its samples.
 */
module ServedPrompts {
  import opened Common
  import opened StoreTypes
  import opened Text
  import opened Splice
  import opened WeightedPick
  import VariantStore

  /** The forwarded prompt and the variant it is logged under; no variant is the baseline. */
  datatype Served = Served(prompt: string, variantId: string) | Panicked

  /** `injects` says whether the adapter manages to put a new prompt into the request body. */
  function Serve(prompt: string, template: string, found: Option<seq<Variant>>, nanos: nat, injects: bool): Served {
    if found == None || prompt == "" then Served(prompt, "")
    else match PickWeighted(found.value, nanos)
      case DivideByZero => Panicked
      case NoVariants => Served(prompt, "")
      case Chosen(v) =>
        if v.id == "" || Segment(prompt, template) == "" || !injects then Served(prompt, "")
        else Served(Rewrite(prompt, template, v.systemPrompt), v.id)
  }

  method ServePrompt(extracted: string, template: string, found: Option<seq<Variant>>, nanos: nat, injects: bool)
    returns (served: Served)
    ensures served == Serve(extracted, template, found, nanos, injects)
  {
    var prompt, variantId := extracted, "";
    if found.Some? && prompt != "" {
      var chosen := PickWeightedRandom(found.value, nanos);
      if chosen == DivideByZero {
        return Panicked;
      }
      if chosen.Chosen? && chosen.variant.id != "" {
        var segment := FindReplacementSegment(prompt, template);
        if segment != "" {
          var newPrompt := ReplaceFirst(prompt, segment, chosen.variant.systemPrompt);
          if injects {
            variantId, prompt := chosen.variant.id, newPrompt;
          }
        }
      }
    }
    return Served(prompt, variantId);
  }

  lemma PickIsMember(vs: seq<Variant>, nanos: nat)
    ensures PickWeighted(vs, nanos).Chosen? ==> PickWeighted(vs, nanos).variant in vs
  {
  }

  /**
   Without a variant set, with an empty one, when the adapter cannot inject, or when nothing of the template occurs, the
   prompt is forwarded as it came and under no variant, unless the pick panicked first.
   */
  lemma BaselineIsUntouched(prompt: string, template: string, found: Option<seq<Variant>>, nanos: nat, injects: bool)
    ensures found == None || found == Some([]) || prompt == "" ==>
              Serve(prompt, template, found, nanos, injects) == Served(prompt, "")
    ensures !injects || Segment(prompt, template) == "" ==>
              var served := Serve(prompt, template, found, nanos, injects);
              served == Panicked || served == Served(prompt, "")
    ensures Serve(prompt, template, found, nanos, injects) == Panicked
            <==> prompt != "" && found.Some? && 0.0 < WeightUpTo(found.value, |found.value|) < 0.001
  {
    if found.Some? {
      PanicsExactlyWhenTiny(found.value, nanos);
    }
  }

  lemma NothingInNothing(template: string, i: nat)
    ensures !WindowOccurs("", Words(template), i)
  {
    var words := Words(template);
    FieldsAreWords(TrimSpace(template));
    if i + 3 <= |words| {
      JoinNonEmpty(words[i..i + 3]);
    }
  }

  /**
   Given a usable set, the proxy falls back to the baseline exactly when no three-word window of the template occurs in
   the prompt; otherwise it forwards one of the variants, spliced in at the first occurrence of the segment.
   */
  lemma BaselineIffNoWindow(prompt: string, template: string, vs: seq<Variant>, nanos: nat) returns (i: nat, v: Variant)
    requires vs != [] && !(0.0 < WeightUpTo(vs, |vs|) < 0.001)
    requires forall u | u in vs :: u.id != ""
    ensures var served := Serve(prompt, template, Some(vs), nanos, true);
            && served.Served?
            && (served.variantId == "" <==> forall j: nat :: !WindowOccurs(prompt, Words(template), j))
            && (served.variantId == "" ==> served.prompt == prompt)
            && (served.variantId != "" ==>
                  && v in vs && PickWeighted(vs, nanos) == Chosen(v) && served.variantId == v.id
                  && OccursAt(prompt, Segment(prompt, template), i)
                  && served.prompt == prompt[..i] + v.systemPrompt + prompt[i + |Segment(prompt, template)|..])
  {
    hide Segment, PickWeighted, Rewrite, WindowOccurs;
    PanicsExactlyWhenTiny(vs, nanos);
    PickIsMember(vs, nanos);
    SegmentIsComplete(prompt, template);
    PicksSomething(vs, nanos);
    i, v := 0, PickWeighted(vs, nanos).variant;
    if prompt == "" {
      forall j: nat
        ensures !WindowOccurs(prompt, Words(template), j)
      {
        NothingInNothing(template, j);
      }
    }
    if Segment(prompt, template) != "" {
      i := RewriteIsLocal(prompt, template, v.systemPrompt);
    }
  }

  lemma PicksSomething(vs: seq<Variant>, nanos: nat)
    requires vs != []
    ensures PickWeighted(vs, nanos) != NoVariants
  {
  }

  // ---------------------------------------------------------------------------
  // Promoted sets
  // ---------------------------------------------------------------------------

  ghost predicate Injective(hash: string -> string) {
    forall p, q | hash(p) == hash(q) :: p == q
  }

  ghost predicate Distinct(prompts: seq<string>) {
    forall i, j | 0 <= i < j < |prompts| :: prompts[i] != prompts[j]
  }

  /**
   Postgres gives back a promoted set whole exactly when the candidate prompts are pairwise distinct. The model's
   answers are not de-duplicated, so repeats lose their share there and keep it in Redis.
   */
  lemma PromotionKeptIffPromptsDistinct(
    table: VariantStore.Table, k: SessionRef, hash: string -> string, prompts: seq<string>, until: int)
    requires Injective(hash)
    ensures var vs := Promoted(hash, prompts);
            multiset(VariantStore.Active(VariantStore.Replace(table, k, vs, until), k)) == multiset(vs)
            <==> Distinct(prompts)
  {
    var vs := Promoted(hash, prompts);
    VariantStore.TableKeepsListIffDistinct(table, k, vs, until);
    if Distinct(prompts) {
      forall i, j | 0 <= i < j < |vs|
        ensures vs[i].id != vs[j].id
      {
        assert hash(prompts[i]) != hash(prompts[j]);
      }
    } else {
      var i, j :| 0 <= i < j < |prompts| && prompts[i] == prompts[j];
      assert vs[i].id == vs[j].id;
    }
  }

  lemma SameMembers(vs: seq<Variant>, ws: seq<Variant>)
    requires multiset(vs) == multiset(ws)
    ensures |vs| == |ws| && forall v :: v in vs <==> v in ws
  {
    assert |multiset(vs)| == |vs| && |multiset(ws)| == |ws|;
    assert forall v :: v in vs <==> v in multiset(vs);
    assert forall v :: v in ws <==> v in multiset(ws);
  }

  /** In whatever order a store returns a promoted set, the pick succeeds and is one of the promoted prompts. */
  lemma PromotedPick(vs: seq<Variant>, hash: string -> string, prompts: seq<string>, nanos: nat) returns (j: nat)
    requires prompts != [] && multiset(vs) == multiset(Promoted(hash, prompts))
    ensures j < |prompts|
    ensures PickWeighted(vs, nanos) == Chosen(Variant(hash(prompts[j]), prompts[j], 1.0 / |prompts| as real))
  {
    hide PickWeighted;
    var w := 1.0 / |prompts| as real;
    SameMembers(vs, Promoted(hash, prompts));
    Reciprocal(|prompts| as real);
    forall i | 0 <= i < |vs|
      ensures vs[i].weight == w
    {
      assert vs[i] in Promoted(hash, prompts);
    }
    EqualSharesAreFair(vs, w, nanos, 0);
    PickIsMember(vs, nanos);
    var chosen := PickWeighted(vs, nanos).variant;
    assert chosen in Promoted(hash, prompts);
    j :| 0 <= j < |prompts| && Promoted(hash, prompts)[j] == chosen;
  }

  /**
   End to end, over every run of the two-tier store and every clock reading: while a session's latest set is a promoted
   one and its inferred template has three or more single-spaced words, a read finds the set, the pick never panics, and
   every sampled prompt comes back as its leading white space, one of the promoted prompts, and the untouched remainder,
   logged under that prompt's id.
   */
  lemma PromotedPromptsAreServed(
    ops: seq<VariantStore.Op>, session: SessionRef, readOk: bool, warmOk: bool, now: int,
    rows: Option<VariantStore.VariantSet>, hash: string -> string, prompts: seq<string>, samples: seq<string>, k: nat,
    nanos: nat)
    returns (lead: string, rest: string, j: nat)
    requires VariantStore.LegalRun(ops + [VariantStore.Read(session, readOk, warmOk, now, rows)])
    requires prompts != [] && (forall p :: hash(p) != "")
    requires session in VariantStore.LatestOf(ops) && VariantStore.LatestOf(ops)[session] == Promoted(hash, prompts)
    requires k < |samples| && SingleSpaced(Template(samples))
    ensures samples[k] == lead + Template(samples) + rest && AllSpace(lead) && j < |prompts|
    ensures var found := VariantStore.ReadResult(VariantStore.AfterAll(ops), session, readOk, now, rows);
            && found.Some?
            && Serve(samples[k], Template(samples), Some(found.value.variants), nanos, true)
               == Served(lead + prompts[j] + rest, hash(prompts[j]))
  {
    hide PickWeighted, Segment, Rewrite, Template;
    VariantStore.ReadsReturnLatest(ops, session, readOk, warmOk, now, rows);
    var found := VariantStore.ReadResult(VariantStore.AfterAll(ops), session, readOk, now, rows);
    j := PromotedPick(found.value.variants, hash, prompts, nanos);
    TemplateNonEmpty(samples);
    lead, rest := SpliceIsExact(samples, k, prompts[j]);
  }

  lemma TemplateNonEmpty(samples: seq<string>)
    requires SingleSpaced(Template(samples))
    ensures Template(samples) != ""
  {
    FieldsOfNothing();
  }
}
