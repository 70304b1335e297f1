/** IntelliJ's `ProblemsHolder` as far as the inspection uses it: an
    append-only list of registered problems. */
module Problems {
  import opened KotlinTypes

  /** One registered problem: the element it targets, its description and
      the single quick fix it carries, modelled as the type text that fix
      would insert. */
  datatype Problem = Problem(target: Property, message: string, fixText: string)

  class ProblemsHolder {
    var problems: seq<Problem>

    constructor ()
      ensures problems == []
    {
      problems := [];
    }

    /** `holder.registerProblem(element, description, fix)`: records one more
        problem after all earlier ones. */
    method RegisterProblem(target: Property, message: string, fixText: string)
      modifies this
      ensures problems == old(problems) + [Problem(target, message, fixText)]
    {
      problems := problems + [Problem(target, message, fixText)];
    }
  }
}
