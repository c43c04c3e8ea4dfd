/** Which definitions lead to `unknown`: a worklist over the references between them. */
module UnknownDefinitions {
  import opened Json
  import opened JsonSchema
  import opened RenderedTypes
  import Recency
  import UA = UnknownAnalysis

  datatype Definition = Definition(schema: Schema, resolve: Resolver)

  type Definitions = map<string, Definition>

  /** What each definition's rendered type holds. */
  type Facts = map<string, Analysis>

  function FactOf(d: Definition): Analysis {
    Summary(Render(d.resolve, d.schema))
  }

  function FactsOf(defs: Definitions): Facts {
    map name | name in defs :: FactOf(defs[name])
  }

  // ----- What the result means -----

  /** A chain of definitions, each naming the next, whose last holds `unknown` itself. */
  predicate Chain(facts: Facts, p: seq<string>) {
    && p != []
    && (forall i :: 0 <= i < |p| ==> p[i] in facts)
    && (forall i :: 0 <= i < |p| - 1 ==> p[i + 1] in facts[p[i]].references)
    && facts[p[|p| - 1]].containsUnknown
  }

  ghost predicate LeadsToUnknown(facts: Facts, name: string) {
    exists p :: Chain(facts, p) && p[0] == name
  }

  lemma LeadsItself(facts: Facts, name: string)
    requires name in facts && facts[name].containsUnknown
    ensures LeadsToUnknown(facts, name)
  {
    assert Chain(facts, [name]) && [name][0] == name;
  }

  lemma LeadsFurther(facts: Facts, name: string, next: string)
    requires name in facts && next in facts[name].references && LeadsToUnknown(facts, next)
    ensures LeadsToUnknown(facts, name)
  {
    var p :| Chain(facts, p) && p[0] == next;
    var q := [name] + p;
    assert forall i :: 0 < i < |q| ==> q[i] == p[i - 1];
    assert Chain(facts, q) && q[0] == name;
  }

  ghost predicate AllLead(facts: Facts, names: set<string>) {
    forall name :: name in names ==> LeadsToUnknown(facts, name)
  }

  /** A set that holds the definitions with `unknown` of their own and all that name a member. */
  ghost predicate Saturated(facts: Facts, unknown: set<string>) {
    && (forall name :: name in facts && facts[name].containsUnknown ==> name in unknown)
    && (forall name, next :: name in facts && next in facts[name].references && next in unknown ==> name in unknown)
  }

  lemma {:induction false} SaturatedHoldsChains(facts: Facts, unknown: set<string>, p: seq<string>)
    requires Saturated(facts, unknown) && Chain(facts, p)
    ensures p[0] in unknown
    decreases |p|
  {
    if |p| > 1 {
      var q := p[1..];
      assert forall i :: 0 <= i < |q| ==> q[i] == p[i + 1];
      assert Chain(facts, q);
      SaturatedHoldsChains(facts, unknown, q);
      assert p[1] in facts[p[0]].references;
    }
  }

  /** Exactly the definitions that lead to `unknown`. */
  ghost predicate Exact(facts: Facts, unknown: set<string>) {
    forall name :: name in unknown <==> LeadsToUnknown(facts, name)
  }

  lemma SaturatedIsExact(facts: Facts, unknown: set<string>)
    requires Saturated(facts, unknown) && AllLead(facts, unknown)
    ensures Exact(facts, unknown)
  {
    forall name | LeadsToUnknown(facts, name) ensures name in unknown {
      var p :| Chain(facts, p) && p[0] == name;
      SaturatedHoldsChains(facts, unknown, p);
    }
  }

  // ----- Preparing the worklist -----

  ghost predicate Own(facts: Facts, unknown: set<string>) {
    forall name :: name in unknown <==> name in facts && facts[name].containsUnknown
  }

  lemma OwnMore(facts: Facts, unknown: set<string>, name: string, fact: Analysis)
    requires Own(facts, unknown) && name !in facts
    ensures Own(facts[name := fact], if fact.containsUnknown then unknown + {name} else unknown)
  {
  }

  /** The facts of the definitions apart from those in `rest`. */
  ghost predicate Covered(facts: Facts, defs: Definitions, rest: set<string>) {
    facts.Keys == defs.Keys - rest && forall name :: name in facts ==> facts[name] == FactOf(defs[name])
  }

  lemma CoveredAll(facts: Facts, defs: Definitions)
    requires Covered(facts, defs, {})
    ensures facts == FactsOf(defs)
  {
  }

  /** Analyses every definition and collects those with `unknown` of their own. */
  method AnalyzeAll(defs: Definitions) returns (analyses: Facts, unknown: set<string>)
    ensures analyses == FactsOf(defs) && Own(analyses, unknown)
  {
    analyses, unknown := map[], {};
    var rest := defs.Keys;
    while rest != {}
      invariant rest <= defs.Keys && Covered(analyses, defs, rest) && Own(analyses, unknown)
      decreases |rest|
    {
      var name :| name in rest;
      var analysis := AnalyzeOne(defs[name]);
      OwnMore(analyses, unknown, name, analysis);
      analyses := analyses[name := analysis];
      unknown := if analysis.containsUnknown then unknown + {name} else unknown;
      rest := rest - {name};
    }
    CoveredAll(analyses, defs);
  }

  method AnalyzeOne(d: Definition) returns (analysis: Analysis)
    ensures analysis == FactOf(d)
  {
    UA.AnalysisAgrees(d.resolve, d.schema);
    analysis := Analyze(d.resolve, d.schema);
  }

  /** For each definition, those that name it. */
  type Dependents = map<string, set<string>>

  function Of(dependents: Dependents, next: string): set<string> {
    if next in dependents then dependents[next] else {}
  }

  /** The definitions in `done` are listed under all those that they name. */
  ghost predicate Inverts(facts: Facts, done: set<string>, dependents: Dependents) {
    forall next, name :: name in Of(dependents, next) <==>
      name in done && name in facts && next in facts && next in facts[name].references
  }

  /** `name` was added under all of `added`. */
  ghost predicate Extends(more: Dependents, dependents: Dependents, name: string, added: set<string>) {
    forall next, x :: x in Of(more, next) <==> x in Of(dependents, next) || (x == name && next in added)
  }

  lemma ExtendsMore(m: Dependents, n: Dependents, dependents: Dependents, name: string, added: set<string>,
                    next: string)
    requires Extends(m, dependents, name, added) && Extends(n, m, name, {next})
    ensures Extends(n, dependents, name, added + {next})
  {
    forall other, x
      ensures x in Of(n, other) <==> x in Of(dependents, other) || (x == name && other in added + {next})
    {
      assert x in Of(n, other) <==> x in Of(m, other) || (x == name && other in {next});
      assert x in Of(m, other) <==> x in Of(dependents, other) || (x == name && other in added);
    }
  }

  lemma ExtendedInverts(facts: Facts, done: set<string>, dependents: Dependents, more: Dependents, name: string,
                        added: set<string>)
    requires name in facts && Inverts(facts, done, dependents) && Extends(more, dependents, name, added)
    requires forall next :: next in added <==> next in facts && next in facts[name].references
    ensures Inverts(facts, done + {name}, more)
  {
    forall next, x
      ensures x in Of(more, next) <==> x in done + {name} && x in facts && next in facts && next in facts[x].references
    {
      assert x in Of(more, next) <==> x in Of(dependents, next) || (x == name && next in added);
      assert x in Of(dependents, next) <==> x in done && x in facts && next in facts && next in facts[x].references;
    }
  }

  method AddDependent(dependents: Dependents, next: string, name: string) returns (more: Dependents)
    ensures Extends(more, dependents, name, {next})
  {
    var names := if next in dependents then dependents[next] else {};
    more := dependents[next := names + {name}];
  }

  method AddReferences(facts: Facts, dependents: Dependents, name: string, ghost done: set<string>)
    returns (more: Dependents)
    requires name in facts && Inverts(facts, done, dependents)
    ensures Inverts(facts, done + {name}, more)
  {
    more := AddUnder(facts.Keys, dependents, name, facts[name].references);
    ExtendedInverts(facts, done, dependents, more, name, facts[name].references * facts.Keys);
  }

  /** Adds `name` under those of `references` that are `known`. */
  method AddUnder(known: set<string>, dependents: Dependents, name: string, references: set<string>)
    returns (more: Dependents)
    ensures Extends(more, dependents, name, references * known)
  {
    more := dependents;
    var left := references;
    ghost var added: set<string> := {};
    while left != {}
      invariant left <= references && Extends(more, dependents, name, added)
      invariant added == (references - left) * known
      decreases |left|
    {
      var next :| next in left;
      if next in known {
        ghost var before := more;
        more := AddDependent(more, next, name);
        ExtendsMore(before, more, dependents, name, added, next);
        added := added + {next};
      }
      left := left - {next};
    }
    assert added == references * known;
  }

  lemma InvertsNone(facts: Facts)
    ensures Inverts(facts, {}, map[])
  {
  }

  method Invert(facts: Facts) returns (dependents: Dependents)
    ensures Inverts(facts, facts.Keys, dependents)
  {
    dependents := map[];
    InvertsNone(facts);
    var rest, done: set<string> := facts.Keys, {};
    while rest != {}
      invariant done + rest == facts.Keys && Inverts(facts, done, dependents)
      decreases |rest|
    {
      var name :| name in rest;
      dependents := AddReferences(facts, dependents, name, done);
      rest, done := rest - {name}, done + {name};
    }
    assert done == facts.Keys;
  }

  ghost predicate Lists(list: seq<string>, names: set<string>) {
    forall name :: name in names <==> name in list
  }

  // ----- The worklist -----

  /** All definitions that name one of `names` are in `unknown`. */
  ghost predicate Spread(dependents: Dependents, names: seq<string>, unknown: set<string>) {
    forall next :: next in names ==> Of(dependents, next) <= unknown
  }

  /** Spreads `unknown` from definitions to those that name them, until nothing is added. */
  method FindUnknownDefinitions(defs: Definitions) returns (unknown: set<string>)
    ensures Exact(FactsOf(defs), unknown)
  {
    var facts, own := AnalyzeAll(defs);
    var dependents := Invert(facts);
    unknown := SpreadAll(facts, dependents, own);
  }

  /** How far the worklist has come: the definitions before `index` have been spread. */
  ghost predicate Spreading(facts: Facts, dependents: Dependents, own: set<string>, unknown: set<string>,
                            pending: seq<string>, index: nat) {
    && index <= |pending| && own <= unknown <= facts.Keys
    && Lists(pending, unknown) && AllLead(facts, unknown) && Spread(dependents, pending[..index], unknown)
  }

  lemma SpreadingStarts(facts: Facts, dependents: Dependents, own: set<string>, pending: seq<string>)
    requires Own(facts, own) && Lists(pending, own)
    ensures Spreading(facts, dependents, own, own, pending, 0)
  {
    forall name | name in own ensures LeadsToUnknown(facts, name) {
      LeadsItself(facts, name);
    }
  }

  lemma SpreadingEnds(facts: Facts, dependents: Dependents, own: set<string>, unknown: set<string>,
                      pending: seq<string>)
    requires Own(facts, own) && Inverts(facts, facts.Keys, dependents)
    requires Spreading(facts, dependents, own, unknown, pending, |pending|)
    ensures Exact(facts, unknown)
  {
    assert pending[..|pending|] == pending;
    Settles(facts, own, dependents, pending, unknown);
    SaturatedIsExact(facts, unknown);
  }

  method SpreadAll(facts: Facts, dependents: Dependents, own: set<string>) returns (unknown: set<string>)
    requires Own(facts, own) && Inverts(facts, facts.Keys, dependents)
    ensures Exact(facts, unknown)
  {
    unknown := own;
    var pending := Recency.Listing(unknown);
    SpreadingStarts(facts, dependents, own, pending);
    var index := 0;
    while index < |pending|
      invariant Spreading(facts, dependents, own, unknown, pending, index)
      decreases |facts.Keys - unknown|, |pending| - index
    {
      ghost var was := unknown;
      unknown, pending := SpreadOne(facts, dependents, own, unknown, pending, index);
      Smaller(facts.Keys, was, unknown);
      index := index + 1;
    }
    SpreadingEnds(facts, dependents, own, unknown, pending);
  }

  lemma Smaller(all: set<string>, was: set<string>, now: set<string>)
    requires was <= now <= all
    ensures was == now || |all - now| < |all - was|
  {
    if was != now {
      var x :| x in now && x !in was;
      Recency.SubsetSize(all - now, all - was - {x});
    }
  }

  lemma Settles(facts: Facts, own: set<string>, dependents: Dependents, pending: seq<string>, unknown: set<string>)
    requires Inverts(facts, facts.Keys, dependents) && Spread(dependents, pending, unknown)
    requires own <= unknown <= facts.Keys && Lists(pending, unknown)
    requires Own(facts, own)
    ensures Saturated(facts, unknown)
  {
    forall name, next | name in facts && next in facts[name].references && next in unknown ensures name in unknown {
      assert name in Of(dependents, next);
    }
  }

  /** Adds the definitions that name the one at `index`. */
  method SpreadOne(facts: Facts, dependents: Dependents, ghost own: set<string>, unknown: set<string>,
                   pending: seq<string>,
                   index: nat)
    returns (more: set<string>, queue: seq<string>)
    requires Inverts(facts, facts.Keys, dependents) && index < |pending|
    requires Spreading(facts, dependents, own, unknown, pending, index)
    ensures unknown <= more <= facts.Keys && pending <= queue && (more == unknown ==> queue == pending)
    ensures Spreading(facts, dependents, own, more, queue, index + 1)
  {
    more, queue := unknown, pending;
    var next := pending[index];
    var left := if next in dependents then dependents[next] else {};
    while left != {}
      invariant left <= Of(dependents, next) && Of(dependents, next) - left <= more
      invariant unknown <= more <= facts.Keys && pending <= queue && (more == unknown ==> queue == pending)
      invariant Lists(queue, more) && AllLead(facts, more)
      decreases |left|
    {
      var name :| name in left;
      if name !in more {
        assert name in Of(dependents, next);
        LeadsFurther(facts, name, next);
        more, queue := more + {name}, queue + [name];
      }
      left := left - {name};
    }
    SpreadMore(dependents, pending, queue, index, unknown, more);
  }

  lemma SpreadMore(dependents: Dependents, pending: seq<string>, queue: seq<string>, index: nat,
                   unknown: set<string>, more: set<string>)
    requires index < |pending| && pending <= queue && unknown <= more
    requires Spread(dependents, pending[..index], unknown) && Of(dependents, pending[index]) <= more
    ensures Spread(dependents, queue[..index + 1], more)
  {
    assert queue[..index + 1] == pending[..index] + [pending[index]];
  }

  /** A contract is reported exactly when its rendered type holds `unknown`, or names a definition
      that leads to one. */
  method SchemaContainsUnknown(defs: Definitions, d: Definition) returns (contains: bool)
    ensures contains <==>
              || HasUnknown(Render(d.resolve, d.schema))
              || exists name :: name in Mentions(Render(d.resolve, d.schema)) && LeadsToUnknown(FactsOf(defs), name)
  {
    UA.AnalysisAgrees(d.resolve, d.schema);
    var analysis := Analyze(d.resolve, d.schema);
    if analysis.containsUnknown {
      return true;
    }
    var unknown := FindUnknownDefinitions(defs);
    contains := analysis.references * unknown != {};
    if contains {
      var name :| name in analysis.references * unknown;
      assert name in Mentions(Render(d.resolve, d.schema)) && LeadsToUnknown(FactsOf(defs), name);
    }
  }
}
