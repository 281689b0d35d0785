/** A model of a tagged union of pets, cats and dogs, whose two variants share a
    `name` field and are told apart by a literal `sound` field, together with
    four functions that dispatch on that field: two that forget the `Dog`
    case and two that handle both.

    The TypeScript `never` assignment in each fallback branch becomes a proof
    obligation here: in the complete functions the fallback is `assert false`,
    which verifies only because no `Pet` reaches it; in the incomplete ones the
    fallback yields `None`, and the lemmas below show exactly which pets get
    there. */
module Pets {

  datatype Option<+T> = None | Some(value: T)

  /** The two discriminant literals of the union. */
  const Meow: string := "meow"
  const Woof: string := "woof"

  /** The record shape both interfaces share: a name and a sound. Its `sound`
      is any string; the interfaces below narrow it to one literal each. */
  datatype Animal = Animal(name: string, sound: string)

  predicate IsCat(a: Animal) { a.sound == Meow }
  predicate IsDog(a: Animal) { a.sound == Woof }

  /** A cat: a record whose sound is "meow". */
  type Cat = a: Animal | IsCat(a) witness Animal("", "meow")

  /** A dog: a record whose sound is "woof". */
  type Dog = a: Animal | IsDog(a) witness Animal("", "woof")

  /** A pet: a record that is a cat or a dog, and nothing else. */
  type Pet = a: Animal | IsCat(a) || IsDog(a) witness Animal("", "meow")

  /** The literals that appear as `sound` across the members of the union. */
  const PetSounds: set<string> := {Meow, Woof}

  // ---------------------------------------------------------------------------
  // The discriminant identifies the variant
  // ---------------------------------------------------------------------------

  /** The members of the union `Pet`. */
  datatype Variant = CatVariant | DogVariant

  /** The discriminant literal each member's `sound` field is fixed to. */
  function Literal(v: Variant): string
  {
    match v
    case CatVariant => Meow
    case DogVariant => Woof
  }

  /** The name of each member, as the complete functions spell it. */
  function KindName(v: Variant): string
  {
    match v
    case CatVariant => "Cat"
    case DogVariant => "Dog"
  }

  /** The member of the union a pet belongs to, read off its `sound`. */
  function VariantOf(p: Pet): (v: Variant)
    ensures p.sound == Literal(v)
    ensures v == CatVariant <==> IsCat(p)
    ensures v == DogVariant <==> IsDog(p)
  {
    if p.sound == Meow then CatVariant else DogVariant
  }

  /** Every pet is a cat or a dog and never both, and its sound is one of the
      union's literals. */
  lemma SoundIdentifiesVariant(p: Pet)
    ensures p.sound in PetSounds
    ensures IsCat(p) != IsDog(p)
  {
  }

  /** Distinct members carry distinct literals, so the literal-to-member
      mapping is a bijection between `Variant` and `PetSounds`. */
  lemma LiteralsDistinct(v: Variant, w: Variant)
    ensures Literal(v) == Literal(w) <==> v == w
    ensures Literal(v) in PetSounds
    ensures forall s :: s in PetSounds ==> exists u :: Literal(u) == s
  {
    forall s | s in PetSounds
      ensures exists u :: Literal(u) == s
    {
      if s == Meow {
        assert Literal(CatVariant) == s;
      } else {
        assert Literal(DogVariant) == s;
      }
    }
  }

  // ---------------------------------------------------------------------------
  // The four dispatch functions
  // ---------------------------------------------------------------------------

  /** The phrase all four functions share: the name, " makes the sound ",
      then the sound. */
  function Says(name: string, sound: string): string
  {
    name + " makes the sound " + sound
  }

  /** `makeSound`: a switch on `sound` with a case for 'meow' only. A dog
      falls through the `default` branch, which produces no string. */
  function MakeSound(p: Pet): (r: Option<string>)
    ensures r.None? <==> IsDog(p)
    ensures r.Some? ==> IsCat(p) && r.value == p.name + " makes the sound meow"
  {
    match p.sound
    case "meow" => Some(Says(p.name, p.sound))
    case _ => None
  }

  /** `makeSoundWithIfElse`: the same single case as an if/else chain; it
      agrees with the switch on every pet. */
  function MakeSoundWithIfElse(p: Pet): (r: Option<string>)
    ensures r == MakeSound(p)
  {
    if p.sound == Meow then Some(Says(p.name, p.sound))
    else None
  }

  /** What a complete dispatch must produce for a pet: the member's name, the
      pet's name and the member's literal. */
  function Describe(p: Pet): string
  {
    var v := VariantOf(p);
    KindName(v) + " " + Says(p.name, Literal(v))
  }

  /** `fixedMakeSound`: a switch with a case per literal. The `default`
      branch is the `never` assignment: it verifies as `assert false` because
      no pet reaches it. */
  function FixedMakeSound(p: Pet): (r: string)
    ensures r == Describe(p)
    ensures IsCat(p) ==> r == "Cat " + p.name + " makes the sound meow"
    ensures IsDog(p) ==> r == "Dog " + p.name + " makes the sound woof"
  {
    match p.sound
    case "meow" => "Cat " + Says(p.name, p.sound)
    case "woof" => "Dog " + Says(p.name, p.sound)
    case _ => assert false; ""
  }

  /** `fixedMakeSoundWithIfElse`: the same two cases as an if/else chain,
      whose final `else` is unreachable in the same way; it returns exactly
      what the switch returns. */
  function FixedMakeSoundWithIfElse(p: Pet): (r: string)
    ensures r == FixedMakeSound(p)
  {
    if p.sound == Meow then "Cat " + Says(p.name, p.sound)
    else if p.sound == Woof then "Dog " + Says(p.name, p.sound)
    else assert false; ""
  }

  // ---------------------------------------------------------------------------
  // Reachability of the fallback branch
  // ---------------------------------------------------------------------------

  /** One branch of a dispatch on `sound`: the literal it tests and the
      prefix it puts before the shared phrase. */
  datatype Case = Case(sound: string, prefix: string)

  /** A dispatch that tests the branches of `table` in order, in the manner
      of both the switch and the if/else chain: the first branch whose sound
      equals `a.sound` produces its string, and `None` stands for falling
      through to the fallback. */
  function Dispatch(table: seq<Case>, a: Animal): Option<string>
  {
    if |table| == 0 then None
    else if a.sound == table[0].sound then Some(table[0].prefix + Says(a.name, a.sound))
    else Dispatch(table[1..], a)
  }

  /** The literals a dispatch tests before its fallback. */
  function Labels(table: seq<Case>): set<string>
  {
    if |table| == 0 then {} else {table[0].sound} + Labels(table[1..])
  }

  /** The branches of the incomplete and of the complete functions. */
  const MakeSoundTable: seq<Case> := [Case(Meow, "")]
  const FixedTable: seq<Case> := [Case(Meow, "Cat "), Case(Woof, "Dog ")]

  /** A dispatch that tests `cases` reaches its fallback on `a` exactly when
      `a.sound` matches none of them. */
  predicate ReachesFallback(cases: set<string>, a: Animal)
  {
    a.sound !in cases
  }

  /** A table dispatch falls through exactly when no branch tests the
      record's sound. */
  lemma {:induction false} DispatchFallback(table: seq<Case>, a: Animal)
    ensures Dispatch(table, a).None? <==> ReachesFallback(Labels(table), a)
  {
    if |table| > 0 && a.sound != table[0].sound {
      DispatchFallback(table[1..], a);
    }
  }

  /** Appending a branch adds its literal, and changes the outcome only for
      records that fell through before. */
  lemma {:induction false} DispatchAppend(table: seq<Case>, c: Case, a: Animal)
    ensures Labels(table + [c]) == Labels(table) + {c.sound}
    ensures Dispatch(table + [c], a)
         == if ReachesFallback(Labels(table), a) then Dispatch([c], a) else Dispatch(table, a)
  {
    if |table| == 0 {
      assert table + [c] == [c];
      assert [c][1..] == [];
    } else {
      assert (table + [c])[1..] == table[1..] + [c];
      DispatchAppend(table[1..], c, a);
    }
  }

  /** The fallback of a dispatch over `cases` is dead for every record whose
      sound is one of the union's literals `union`: what the `never`
      assignment demands. */
  ghost predicate Exhaustive(cases: set<string>, union: set<string>)
  {
    forall a: Animal :: a.sound in union ==> !ReachesFallback(cases, a)
  }

  /** A dispatch is exhaustive over a union exactly when it tests every one
      of the union's literals. One missing literal leaves a record that
      reaches the fallback, and that is the build error. */
  lemma ExhaustiveIffCovers(cases: set<string>, union: set<string>)
    ensures Exhaustive(cases, union) <==> union <= cases
  {
    if !(union <= cases) {
      var s :| s in union && s !in cases;
      assert ReachesFallback(cases, Animal("", s));
    }
  }

  /** The complete functions are the dispatch over `FixedTable`, which tests
      every literal of the union, so no pet reaches their fallback. */
  lemma FixedFallbackUnreachable(p: Pet)
    ensures Dispatch(FixedTable, p) == Some(FixedMakeSound(p))
    ensures Dispatch(FixedTable, p) == Some(FixedMakeSoundWithIfElse(p))
    ensures Labels(FixedTable) == PetSounds
    ensures !ReachesFallback(Labels(FixedTable), p)
    ensures Exhaustive(Labels(FixedTable), PetSounds)
  {
    assert FixedTable[1..] == [Case(Woof, "Dog ")];
    assert FixedTable[1..][1..] == [];
    assert Labels(FixedTable[1..]) == {Woof};
    ExhaustiveIffCovers(Labels(FixedTable), PetSounds);
  }

  /** The incomplete functions are the dispatch over `MakeSoundTable`; its
      fallback is reached by exactly the dogs, so it is not exhaustive over
      the pets. */
  lemma MakeSoundFallbackIsDogs(p: Pet)
    ensures Dispatch(MakeSoundTable, p) == MakeSound(p)
    ensures Dispatch(MakeSoundTable, p) == MakeSoundWithIfElse(p)
    ensures ReachesFallback(Labels(MakeSoundTable), p) <==> IsDog(p)
    ensures !Exhaustive(Labels(MakeSoundTable), PetSounds)
  {
    assert MakeSoundTable[1..] == [];
    assert "" + Says(p.name, p.sound) == Says(p.name, p.sound);
    SoundIdentifiesVariant(p);
    ExhaustiveIffCovers(Labels(MakeSoundTable), PetSounds);
    assert Woof !in Labels(MakeSoundTable) by { assert Meow[0] != Woof[0]; }
  }

  /** A record with a literal outside the union falls through the complete
      functions' table. Appending a branch for it produces its string,
      leaves every pet's string as it was, and makes the dispatch exhaustive
      over the enlarged union. */
  lemma AddedVariantBreaksExhaustive(name: string, added: string, prefix: string)
    requires added !in PetSounds
    ensures Dispatch(FixedTable, Animal(name, added)).None?
    ensures Dispatch(FixedTable + [Case(added, prefix)], Animal(name, added))
         == Some(prefix + Says(name, added))
    ensures forall p: Pet :: Dispatch(FixedTable + [Case(added, prefix)], p) == Some(FixedMakeSound(p))
    ensures !Exhaustive(Labels(FixedTable), PetSounds + {added})
    ensures Exhaustive(Labels(FixedTable + [Case(added, prefix)]), PetSounds + {added})
  {
    var c := Case(added, prefix);
    var a := Animal(name, added);
    FixedFallbackUnreachable(Animal("", Meow));
    DispatchFallback(FixedTable, a);
    DispatchAppend(FixedTable, c, a);
    forall p: Pet
      ensures Dispatch(FixedTable + [c], p) == Some(FixedMakeSound(p))
    {
      FixedFallbackUnreachable(p);
      DispatchAppend(FixedTable, c, p);
    }
    ExhaustiveIffCovers(Labels(FixedTable), PetSounds + {added});
    ExhaustiveIffCovers(Labels(FixedTable + [c]), PetSounds + {added});
  }

  // ---------------------------------------------------------------------------
  // Shape of the produced strings
  // ---------------------------------------------------------------------------

  /** `part` occurs in `s` starting at index `at`. */
  predicate OccursAt(part: string, s: string, at: int)
  {
    0 <= at && at + |part| <= |s| && s[at..at + |part|] == part
  }

  predicate EndsWith(s: string, suffix: string)
  {
    |suffix| <= |s| && s[|s| - |suffix|..] == suffix
  }

  /** The incomplete functions' string starts with the pet's name, unchanged,
      ends with its sound, and lacks the "Cat " prefix of the complete ones. */
  lemma MakeSoundLayout(p: Pet)
    requires MakeSound(p).Some?
    ensures OccursAt(p.name, MakeSound(p).value, 0)
    ensures EndsWith(MakeSound(p).value, p.sound)
    ensures MakeSound(p).value != FixedMakeSound(p)
  {
  }

  /** The complete functions' string carries the pet's name, unchanged,
      right after the member's name and a space, and ends with its sound. */
  lemma FixedMakeSoundLayout(p: Pet)
    ensures OccursAt(p.name, FixedMakeSound(p), 4)
    ensures EndsWith(FixedMakeSound(p), p.sound)
    ensures FixedMakeSound(p)[..4] == KindName(VariantOf(p)) + " "
  {
  }

  /** The complete functions lose nothing: two pets with the same string
      are the same pet. */
  lemma FixedMakeSoundInjective(p: Pet, q: Pet)
    requires FixedMakeSound(p) == FixedMakeSound(q)
    ensures p == q
  {
    var s := FixedMakeSound(p);
    FixedMakeSoundLayout(p);
    FixedMakeSoundLayout(q);
    assert KindName(VariantOf(p))[0] == s[0] == KindName(VariantOf(q))[0];
    assert VariantOf(p) == VariantOf(q);
    assert |p.name| == |q.name|;
    assert p.name == s[4..4 + |p.name|] == q.name;
  }

  /** Likewise for the incomplete functions, on the cats they handle. */
  lemma MakeSoundInjective(p: Pet, q: Pet)
    requires MakeSound(p).Some? && MakeSound(p) == MakeSound(q)
    ensures p == q
  {
    var s := MakeSound(p).value;
    MakeSoundLayout(p);
    MakeSoundLayout(q);
    assert |p.name| == |q.name|;
    assert p.name == s[..|p.name|] == q.name;
  }

  /** The sample cat and the string the complete switch gives it. */
  lemma Tom()
    ensures FixedMakeSound(Animal("Tom", "meow")) == "Cat Tom makes the sound meow"
  {
    var tom: Cat := Animal("Tom", "meow");
    assert FixedMakeSound(tom) == "Cat " + "Tom" + " makes the sound meow";
    assert "Cat " + "Tom" == "Cat Tom";
    assert "Cat Tom" + " makes the sound meow" == "Cat Tom makes the sound meow";
  }

  /** The sample dog: the complete switch describes it, the incomplete one
      falls through. */
  lemma Rex()
    ensures FixedMakeSound(Animal("Rex", "woof")) == "Dog Rex makes the sound woof"
    ensures MakeSound(Animal("Rex", "woof")) == None
  {
    var rex: Dog := Animal("Rex", "woof");
    assert FixedMakeSound(rex) == "Dog " + "Rex" + " makes the sound woof";
    assert "Dog " + "Rex" == "Dog Rex";
    assert "Dog Rex" + " makes the sound woof" == "Dog Rex makes the sound woof";
  }
}
