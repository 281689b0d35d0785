# Pets: exhaustive dispatch over a tagged union

This project models `pets.ts`, a small TypeScript teaching example of a tagged
union. The type `Pet` is the union of two record shapes, `Cat` and `Dog`. Both have a `name` string.
Each has a `sound` field fixed to one literal: `'meow'` for `Cat` and `'woof'`
for `Dog`. Four functions dispatch on `sound`:

- `makeSound` (a `switch`) and `makeSoundWithIfElse` (an `if`/`else`) handle
  only `'meow'`. A dog falls through to the fallback branch. That branch holds
  the `never` assignment, so the TypeScript compiler rejects both functions.
- `fixedMakeSound` and `fixedMakeSoundWithIfElse` handle both literals. Their
  fallback is dead, so the `never` assignment type-checks.

In the model (module `Pets`, file `pets.dfy`):

- `Animal(name, sound)` is the record shape the two interfaces share.
- `Cat`, `Dog` and `Pet` are subset types of `Animal` that restrict `sound`
  exactly as the TypeScript literal types do.
- `Variant` lists the members of the union. `Literal` and `KindName` give each
  member's discriminant literal and display name.
- The `switch` becomes a `match` on string literal patterns. The `if`/`else`
  chain stays an `if`/`else` chain.
- In the complete functions the `never` assignment becomes `assert false`.
  Dafny accepts it only because no `Pet` reaches that branch.
- In the incomplete functions the fallback returns `None`. The lemmas state
  exactly which pets reach it: the dogs.
- `Dispatch` runs a table of branches (`Case`: a literal and a prefix) in
  order, as both the switch and the if/else chain do. The incomplete
  functions equal the dispatch over `MakeSoundTable`, and the complete ones
  equal the dispatch over `FixedTable`. A table dispatch falls through
  exactly when no branch tests the record's sound.
- `ReachesFallback` and `Exhaustive` state the same idea for any set of
  handled literals over any set of union literals. A dispatch is exhaustive
  exactly when it handles every literal of the union. Adding a member with a
  new literal breaks exhaustiveness until a case is added for it.

## Model

| member | source | states |
|---|---|---|
| `Pets.VariantOf` | pets.ts:3-14 | each pet belongs to the union member whose literal is its `sound`; that member is `Cat` exactly when the sound is 'meow' and `Dog` exactly when it is 'woof' |
| `Pets.SoundIdentifiesVariant` | pets.ts:3-14 | every pet's sound is 'meow' or 'woof', and every pet is a cat or a dog but never both |
| `Pets.LiteralsDistinct` | pets.ts:3-11 | two union members have the same discriminant literal only if they are the same member, every member's literal belongs to the union's literals, and every literal of the union is some member's literal, so literal and member are in bijection |
| `Pets.MakeSound` | pets.ts:16-31 | the switch with only a 'meow' case gives no string exactly for dogs; for a cat it gives `name + " makes the sound meow"`, with no "Cat " prefix |
| `Pets.MakeSoundWithIfElse` | pets.ts:33-42 | the incomplete if/else chain returns the same result as the incomplete switch for every pet |
| `Pets.FixedMakeSound` | pets.ts:44-56 | the complete switch returns the member name, a space, the pet's name, " makes the sound " and the member's literal: `"Cat " + name + " makes the sound meow"` for a cat and `"Dog " + name + " makes the sound woof"` for a dog; its default branch is proved dead |
| `Pets.FixedMakeSoundWithIfElse` | pets.ts:58-67 | the complete if/else chain returns the same string as the complete switch for every pet; its final else is proved dead |
| `Pets.DispatchFallback` | pets.ts:16-67 | a dispatch that tests a table of branches in order falls through to its fallback exactly when no branch tests the record's sound |
| `Pets.DispatchAppend` | pets.ts:44-56 | appending a branch adds its literal to the tested ones and changes the outcome only for records that fell through before |
| `Pets.ExhaustiveIffCovers` | pets.ts:16-67 | a dispatch's fallback is dead for every record of a union exactly when the dispatch tests every literal of that union; both directions are proved |
| `Pets.FixedFallbackUnreachable` | pets.ts:44-67 | both complete functions return exactly what the dispatch over the table ('meow' then "Cat ", 'woof' then "Dog ") returns; that table tests exactly the union's literals, so no pet reaches their default or final else and the dispatch is exhaustive over `Pet` |
| `Pets.MakeSoundFallbackIsDogs` | pets.ts:16-42 | both incomplete functions return exactly what the dispatch over the one-branch table ('meow', no prefix) returns; a pet reaches that table's fallback exactly when it is a dog, so the incomplete functions are not exhaustive over `Pet` |
| `Pets.AddedVariantBreaksExhaustive` | pets.ts:44-56 | a record with a literal outside the union falls through the complete functions' table, so that table is not exhaustive over the enlarged union; appending a branch for the new literal produces that record's string, leaves every pet's string equal to `FixedMakeSound`'s, and makes the table exhaustive over the enlarged union |
| `Pets.MakeSoundLayout` | pets.ts:18-19 | an incomplete function's string starts with the pet's name, unchanged, ends with its sound, and differs from the complete functions' string for the same cat |
| `Pets.FixedMakeSoundLayout` | pets.ts:48-52 | a complete function's string starts with the member name and a space, then holds the pet's name unchanged, and ends with the pet's sound |
| `Pets.FixedMakeSoundInjective` | pets.ts:48-52 | two pets get the same string from the complete functions only if they are the same pet |
| `Pets.MakeSoundInjective` | pets.ts:18-19 | two pets get the same string from the incomplete functions only if they are the same cat |
| `Pets.Tom` | pets.ts:48-50 | the cat named Tom is described as "Cat Tom makes the sound meow" |
| `Pets.Rex` | pets.ts:16-52 | the dog named Rex is described as "Dog Rex makes the sound woof" by the complete switch and gets no string from the incomplete one |

## Left out

- The TypeScript compiler's flow-sensitive narrowing and its diagnostic text
  (pets.ts:28). They belong to the host tool chain. The model states only
  whether each fallback branch is reachable.
- The `_exhaustiveCheck` variable of type `never`. Dafny has no empty
  type to bind it to without an unchecked witness. The complete functions use
  `assert false` in its place, and the incomplete functions return `None`.
- JavaScript's runtime `undefined` when the incomplete functions fall
  through. It is represented abstractly as `None`.
- Negative-compilation testing of the incomplete functions. The compiler's
  rejection is represented by the lemmas showing that their fallback is
  reachable, so an `assert false` there could not be proved.
- Idempotence of repeated calls. Every Dafny function is deterministic, so it
  holds by construction and has no lemma of its own.
