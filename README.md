# PropertyTypeRevealer inspection, modelled in Dafny

PropertyTypeRevealer is an IntelliJ plugin with one Kotlin inspection,
`KotlinPropertyTypeReferenceInspection`. The inspection visits every `KtProperty`.
When a property has no explicit type reference, it registers problems on that
property, and each problem offers one quick fix that would insert a type. The
first problem offers the inferred type's `toString()`. After it comes one
problem per immediate supertype of the inferred type, in the compiler's order.
Each supertype is rendered by `constructSupertypeWithGenericArguments` as its
constructor name. When the supertype has type arguments, the rendering goes on
with `<`, the arguments' constructor names separated by `", "`, and `>`.

The model has four modules, one file each:

- `KotlinTypes` (`kotlin_types.dfy`): the compiler-side values. `KType` holds a
  type's constructor name, its argument types and its opaque `toString()` text.
  `Inferred` holds an inferred type together with its ordered immediate
  supertypes. `Property` is a declaration with an optional explicit type
  reference and an optional inference result.
- `TypeRendering` (`type_rendering.dfy`): `Render` is the functional
  specification of the renderer. `ConstructSupertypeWithGenericArguments` is the
  string-builder loop, and it is proved equal to `Render`. Lemmas describe
  exactly where each argument name and each separator sits in the result.
- `Problems` (`problems.dfy`): `ProblemsHolder` is a class holding an
  append-only `seq` of `(target, message, fixText)` problems.
- `PropertyInspection` (`property_inspection.dfy`): `Candidates` is the
  functional specification of what one visit appends. The `PropertyVisitor`
  class holds the holder, and its `VisitProperty` method is the `forEach`
  loop. It is proved to append exactly `Candidates(property)`. Lemmas give the
  count, the order, the targets and the message of those problems.

The inspection has no scope filter: any property without a type reference is
flagged, whether it is top-level, a member or a local
(`KotlinPropertyTypeReferenceInspection.kt:44`). Each candidate type is
registered as a separate problem with one fix (lines 45 and 53). The message
of every problem is "There's no type reference for the property" (line 89).

## Model

| member | source | states |
|---|---|---|
| `TypeRendering.ConstructSupertypeWithGenericArguments` | src/main/kotlin/com/github/evgenyrsk/propertytyperevealer/KotlinPropertyTypeReferenceInspection.kt:66-80 | The string-builder loop returns exactly `Render(t)`. It appends the constructor name, then `<`, each argument's constructor name with a separator unless that argument is the last, and `>`. |
| `TypeRendering.RenderNoArguments` | src/main/kotlin/com/github/evgenyrsk/propertytyperevealer/KotlinPropertyTypeReferenceInspection.kt:67-69 | A type renders as exactly its constructor name, with no brackets, if and only if it has no arguments. |
| `TypeRendering.RenderFrame` | src/main/kotlin/com/github/evgenyrsk/propertytyperevealer/KotlinPropertyTypeReferenceInspection.kt:67-79 | With n ≥ 1 arguments, the result starts with the constructor name and `<`, ends with `>`, and its length is the constructor name's plus that of the joined argument names plus the two brackets. |
| `TypeRendering.RenderWithArguments` | src/main/kotlin/com/github/evgenyrsk/propertytyperevealer/KotlinPropertyTypeReferenceInspection.kt:71-77 | With n ≥ 1 arguments, argument k's constructor name sits at its fixed offset after `<`. A separator follows it when another argument follows, and `>` follows the last argument directly. |
| `TypeRendering.JoinLength` | src/main/kotlin/com/github/evgenyrsk/propertytyperevealer/KotlinPropertyTypeReferenceInspection.kt:71-76 | The joined argument list ends exactly where the last name ends, so no separator comes after the last argument. Its length is the sum of the name lengths plus two characters per separator between neighbours. |
| `TypeRendering.JoinPiece` | src/main/kotlin/com/github/evgenyrsk/propertytyperevealer/KotlinPropertyTypeReferenceInspection.kt:71-72 | In the joined argument list, name k sits at its offset: the lengths of the earlier names plus one separator after each of them. |
| `TypeRendering.JoinSeparator` | src/main/kotlin/com/github/evgenyrsk/propertytyperevealer/KotlinPropertyTypeReferenceInspection.kt:73-75 | Every name except the last is followed directly by `", "`, which ends where the next name starts. With JoinPiece and JoinLength this tiles the whole joined text, so the separator is written exactly n-1 times and only between arguments. |
| `TypeRendering.RenderOneLevel` | src/main/kotlin/com/github/evgenyrsk/propertytyperevealer/KotlinPropertyTypeReferenceInspection.kt:72 | Two types with the same constructor name and the same argument constructor names render identically, whatever the arguments' own arguments or texts are. |
| `TypeRendering.RenderMapExample` | src/main/kotlin/com/github/evgenyrsk/propertytyperevealer/KotlinPropertyTypeReferenceInspection.kt:66-80 | `Map` with arguments `String` and `Int` renders as `Map<String, Int>`. |
| `Problems.ProblemsHolder.RegisterProblem` | src/main/kotlin/com/github/evgenyrsk/propertytyperevealer/KotlinPropertyTypeReferenceInspection.kt:87-91 | The holder is append-only. Registering adds one problem after all earlier ones and changes nothing else. |
| `PropertyInspection.PropertyVisitor.constructor` | src/main/kotlin/com/github/evgenyrsk/propertytyperevealer/KotlinPropertyTypeReferenceInspection.kt:35-40 | The visitor reports into the holder it was built with. |
| `PropertyInspection.PropertyVisitor.RegisterProblem` | src/main/kotlin/com/github/evgenyrsk/propertytyperevealer/KotlinPropertyTypeReferenceInspection.kt:82-92 | It appends one problem on the given element, with the fixed message and the one given fix. |
| `PropertyInspection.PropertyVisitor.VisitProperty` | src/main/kotlin/com/github/evgenyrsk/propertytyperevealer/KotlinPropertyTypeReferenceInspection.kt:42-62 | It appends exactly `Candidates(property)` after the holder's earlier problems. It modifies only the holder, so the property is never changed. |
| `PropertyInspection.SupertypeProblemsAt` | src/main/kotlin/com/github/evgenyrsk/propertytyperevealer/KotlinPropertyTypeReferenceInspection.kt:50-60 | There is one supertype problem per immediate supertype. The k-th one offers exactly the k-th supertype, rendered. |
| `PropertyInspection.CandidateCount` | src/main/kotlin/com/github/evgenyrsk/propertytyperevealer/KotlinPropertyTypeReferenceInspection.kt:44-61 | A property with an explicit type gets no problem. An untyped one gets 1 + (number of immediate supertypes) problems, and exactly 1 when inference failed. |
| `PropertyInspection.CandidateOrder` | src/main/kotlin/com/github/evgenyrsk/propertytyperevealer/KotlinPropertyTypeReferenceInspection.kt:45-60 | The first fix text is the inferred type's own text, or `"null"` when inference failed. Fix text k+1 is the rendered k-th supertype, in the compiler's order. |
| `PropertyInspection.CandidateTargets` | src/main/kotlin/com/github/evgenyrsk/propertytyperevealer/KotlinPropertyTypeReferenceInspection.kt:45-58 | Every problem registered for a property targets that same property and carries the message "There's no type reference for the property". |
| `PropertyInspection.ArrayListExample` | src/main/kotlin/com/github/evgenyrsk/propertytyperevealer/KotlinPropertyTypeReferenceInspection.kt:42-62 | An untyped property inferred as `ArrayList<String>`, whose one immediate supertype is `List<String>`, gets exactly two problems. They offer `ArrayList<String>` and `List<String>`, in that order. The first text is the inferred type's opaque `toString()`, taken as given. Only the second is rendered and proved. |

## Left out

- `PropertyTypeReferenceQuickFix.kt` (applying a fix). It parses the text with `KtPsiFactory.createType`, assigns the result to the property and swallows every exception. Parsing is done by an external library. A fix is modelled only as the text it carries.
- `services/MyProjectService.kt`. It is a host lifecycle hook that only prints a bundle message.
- Kotlin type inference (`property.type()`) and `immediateSupertypes()`. These are compiler services, and their answers are inputs: `Property.inference` holds the inferred type and its supertype list.
- `KotlinType.toString()` and `TypeConstructor.toString()`. These are treated as opaque strings stored in `KType` (`text` and `ctor`).
- Type projections. The model does not distinguish star projections or variance from the projection's type. An argument is modelled by its type, and only that type's constructor name is used.
- `type.arguments.isNullOrEmpty()`. The null case is not modelled: an argument list is a `seq`, and only emptiness is checked.
- IntelliJ plumbing. This covers `AbstractKotlinInspection`, `KtVisitorVoid`, the traversal done by `super.visitProperty`, the constants of `getDisplayName`, `getGroupDisplayName`, `isEnabledByDefault` and `INSPECTION_FAMILY_NAME`, and the `quickFixFactory` indirection. The model uses the fix text directly.
- The identity of syntax-tree elements. A problem's target is the `Property` value itself. Because that value is immutable, "the visitor never changes the property" holds by construction.
