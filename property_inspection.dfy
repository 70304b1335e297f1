/** `KotlinPropertyTypeReferenceInspection`: flags every property written without
    an explicit type and offers, as separate problems, the inferred type and each
    of its immediate supertypes as the type to insert. */
module PropertyInspection {
  import opened KotlinTypes
  import opened TypeRendering
  import opened Problems

  /** The description of every problem the inspection registers. */
  const NoTypeReferenceMessage: string := "There's no type reference for the property"

  /** One problem per immediate supertype, in the order given, each offering the
      rendered supertype. */
  function SupertypeProblems(property: Property, supertypes: seq<KType>): (ps: seq<Problem>)
  {
    if |supertypes| == 0 then []
    else
      var last := supertypes[|supertypes| - 1];
      SupertypeProblems(property, supertypes[..|supertypes| - 1])
        + [Problem(property, NoTypeReferenceMessage, Render(last))]
  }

  /** The functional specification of `visitProperty`: the problems it appends
      to the holder for one property. */
  function Candidates(property: Property): (ps: seq<Problem>)
  {
    if property.typeReference.Some? then []
    else
      [Problem(property, NoTypeReferenceMessage, InferredText(property.inference))]
        + match property.inference
          case None => []
          case Some(inferred) => SupertypeProblems(property, inferred.supertypes)
  }

  /** The `k`-th supertype problem offers exactly the `k`-th supertype, rendered;
      there is one problem per supertype. */
  lemma {:induction false} SupertypeProblemsAt(property: Property, supertypes: seq<KType>)
    ensures |SupertypeProblems(property, supertypes)| == |supertypes|
    ensures forall k :: 0 <= k < |supertypes| ==>
      SupertypeProblems(property, supertypes)[k] == Problem(property, NoTypeReferenceMessage, Render(supertypes[k]))
  {
    if |supertypes| > 0 {
      var init := supertypes[..|supertypes| - 1];
      SupertypeProblemsAt(property, init);
      assert forall k :: 0 <= k < |init| ==> init[k] == supertypes[k];
    }
  }

  /** No problem for a property with an explicit type; otherwise one for the
      inferred type (just one when inference failed) plus one per immediate
      supertype. */
  lemma CandidateCount(property: Property)
    ensures property.typeReference.Some? ==> Candidates(property) == []
    ensures property.typeReference.None? && property.inference.None? ==> |Candidates(property)| == 1
    ensures property.typeReference.None? && property.inference.Some? ==>
      |Candidates(property)| == 1 + |property.inference.value.supertypes|
  {
    if property.typeReference.None? && property.inference.Some? {
      SupertypeProblemsAt(property, property.inference.value.supertypes);
    }
  }

  /** The first problem offers the inferred type's own text (`"null"` when
      inference failed); the following ones offer the rendered supertypes in
      exactly the order the compiler lists them. */
  lemma CandidateOrder(property: Property)
    requires property.typeReference.None?
    ensures |Candidates(property)| >= 1
    ensures property.inference.None? ==> Candidates(property)[0].fixText == "null"
    ensures property.inference.Some? ==> Candidates(property)[0].fixText == property.inference.value.kType.text
    ensures property.inference.Some? ==>
      var supertypes := property.inference.value.supertypes;
      |Candidates(property)| == 1 + |supertypes| &&
      forall k :: 0 <= k < |supertypes| ==> Candidates(property)[k + 1].fixText == Render(supertypes[k])
  {
    if property.inference.Some? {
      SupertypeProblemsAt(property, property.inference.value.supertypes);
    }
  }

  /** Every problem registered for a property targets that property, carries the
      inspection's message, and offers one fix. */
  lemma CandidateTargets(property: Property)
    ensures forall k :: 0 <= k < |Candidates(property)| ==>
      Candidates(property)[k].target == property && Candidates(property)[k].message == NoTypeReferenceMessage
  {
    if property.typeReference.None? && property.inference.Some? {
      SupertypeProblemsAt(property, property.inference.value.supertypes);
    }
  }

  /** An untyped declaration inferred as `ArrayList<String>` whose one immediate
      supertype is `List<String>` gets exactly two problems, offering
      `ArrayList<String>` and `List<String>` in that order. The first text is
      the inferred type's opaque `toString()`, given here as an assumption;
      only the second is rendered by this model. */
  lemma ArrayListExample(property: Property, stringType: KType, listType: KType)
    requires stringType.ctor == "String"
    requires listType.ctor == "List" && listType.args == [stringType]
    requires property.typeReference.None?
    requires property.inference.Some?
    requires property.inference.value.kType.text == "ArrayList<String>"
    requires property.inference.value.supertypes == [listType]
    ensures |Candidates(property)| == 2
    ensures Candidates(property)[0].fixText == "ArrayList<String>"
    ensures Candidates(property)[1].fixText == "List<String>"
  {
    CandidateOrder(property);
    assert ArgCtors(listType.args) == ["String"];
  }

  /** The visitor object `buildVisitor` returns: it closes over the holder that
      collects the problems. */
  class PropertyVisitor {
    const holder: ProblemsHolder

    /** `buildVisitor(holder, ...)`. */
    constructor (holder: ProblemsHolder)
      ensures this.holder == holder
    {
      this.holder := holder;
    }

    /** The inspection's private `registerProblem`: one problem on `whatToFix`
        with the fixed message and one fix. */
    method RegisterProblem(whatToFix: Property, fixText: string)
      modifies holder
      ensures holder.problems == old(holder.problems) + [Problem(whatToFix, NoTypeReferenceMessage, fixText)]
    {
      holder.RegisterProblem(whatToFix, NoTypeReferenceMessage, fixText);
    }

    /** `visitProperty`: for a property without an explicit type, registers the
        inferred type's text and then each rendered immediate supertype, in
        order, after everything already in the holder; the property itself is
        never changed. */
    method VisitProperty(property: Property)
      modifies holder
      ensures holder.problems == old(holder.problems) + Candidates(property)
    {
      if property.typeReference.None? {
        RegisterProblem(property, InferredText(property.inference));
        if property.inference.Some? {
          var supertypes := property.inference.value.supertypes;
          ghost var before := holder.problems;
          var i := 0;
          while i < |supertypes|
            invariant 0 <= i <= |supertypes|
            invariant holder.problems == before + SupertypeProblems(property, supertypes[..i])
          {
            assert supertypes[..i + 1][..i] == supertypes[..i];
            var text := ConstructSupertypeWithGenericArguments(supertypes[i]);
            RegisterProblem(property, text);
            i := i + 1;
          }
          assert supertypes[..i] == supertypes;
        }
      }
    }
  }
}
