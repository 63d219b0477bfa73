/**
 * The build-time RPC name-uniqueness check: an annotation processor that, over
 * all compiler rounds, records the simple names of the methods of every type
 * annotated @RPCValidation and, when processing is over, fails if some type
 * records a name more than once.
 *
 * The compiler's element API is replaced by plain data (each round's annotated
 * types and their enclosed elements), and the regular-expression engine by the
 * parameter `matches`, which stands for Java's whole-string `String.matches`.
 */
module RpcValidation {
  import opened Wrappers

  /** The kinds of enclosed element that javax.lang.model distinguishes. */
  datatype ElementKind = Method | Constructor | Field | EnumConstant | NestedType | StaticInit | InstanceInit

  /** A member of an annotated type; `isStatic` is the member's own STATIC modifier. */
  datatype EnclosedElement = EnclosedElement(kind: ElementKind, simpleName: string, isStatic: bool)

  /** An annotation on a type, with its element values after defaults are applied. */
  datatype AnnotationMirror = AnnotationMirror(annotationType: string, excludePattern: string, includeStaticMethods: bool)

  /** A type element; `isStatic` is the type's own STATIC modifier (a static nested type). */
  datatype TypeElement = TypeElement(
    qualifiedName: string,
    simpleName: string,
    isStatic: bool,
    annotations: seq<AnnotationMirror>,
    enclosed: seq<EnclosedElement>)

  /**
   * One call of `process`: the annotation type the round is about (absent when
   * the round offers none), the elements annotated with it in the order the
   * compiler returns them, and whether this is the last round.
   */
  datatype Round = Round(annotationType: Option<string>, annotated: seq<TypeElement>, processingOver: bool)

  /** The accumulator: the names recorded so far for each annotated type. */
  type Table = map<TypeElement, seq<string>>

  datatype ProcessError =
    | MissingAnnotation(element: TypeElement, annotationType: string)   // IllegalArgumentException of findAnnotation
    | DuplicateMethodNames(typeName: string, duplicates: set<string>)  // IllegalStateException of the final check

  /** What `process` does: return its boolean, or throw. */
  datatype Outcome = Returned(claimed: bool) | Threw(error: ProcessError)

  /** The first annotation on an element whose type is `annotationType`. */
  function FindAnnotation(mirrors: seq<AnnotationMirror>, annotationType: string): (r: Option<AnnotationMirror>)
    ensures r.None? <==> forall i :: 0 <= i < |mirrors| ==> mirrors[i].annotationType != annotationType
    ensures r.Some? ==> exists i :: 0 <= i < |mirrors| && mirrors[i] == r.value && r.value.annotationType == annotationType
                                   && forall j :: 0 <= j < i ==> mirrors[j].annotationType != annotationType
  {
    if mirrors == [] then None
    else if mirrors[0].annotationType == annotationType then Some(mirrors[0])
    else
      var r := FindAnnotation(mirrors[1..], annotationType);
      assert forall i :: 1 <= i < |mirrors| ==> mirrors[i] == mirrors[1..][i - 1];
      r
  }

  /** A name the exclude pattern removes; an empty pattern removes nothing. */
  predicate Excluded(name: string, pattern: string, matches: (string, string) -> bool)
  {
    pattern != "" && matches(name, pattern)
  }

  /** The three `continue` guards of the member loop, negated: the member is recorded. */
  predicate Recorded(m: EnclosedElement, typeIsStatic: bool, settings: AnnotationMirror, matches: (string, string) -> bool)
  {
    && m.kind == Method
    && !(!settings.includeStaticMethods && typeIsStatic)
    && !Excluded(m.simpleName, settings.excludePattern, matches)
  }

  /** The names one annotated type contributes in one round, in encounter order. */
  function RecordedNames(ms: seq<EnclosedElement>, typeIsStatic: bool, settings: AnnotationMirror,
                         matches: (string, string) -> bool): seq<string>
  {
    if ms == [] then []
    else
      var last := ms[|ms| - 1];
      RecordedNames(ms[..|ms| - 1], typeIsStatic, settings, matches)
        + (if Recorded(last, typeIsStatic, settings, matches) then [last.simpleName] else [])
  }

  /** The simple names of all METHOD members, static or not, in encounter order. */
  function MethodNames(ms: seq<EnclosedElement>): seq<string>
  {
    if ms == [] then []
    else MethodNames(ms[..|ms| - 1]) + (if ms[|ms| - 1].kind == Method then [ms[|ms| - 1].simpleName] else [])
  }

  /** The names of `names` that the exclude pattern leaves, in order. */
  function Unmatched(names: seq<string>, pattern: string, matches: (string, string) -> bool): seq<string>
  {
    if names == [] then []
    else
      var last := names[|names| - 1];
      Unmatched(names[..|names| - 1], pattern, matches) + (if Excluded(last, pattern, matches) then [] else [last])
  }

  /**
   * `computeIfAbsent(e, new ArrayList).add(name)` for each of `names`; the map
   * itself is only created (from null) when a first name is added.
   */
  function Append(table: Option<Table>, e: TypeElement, names: seq<string>): Option<Table>
  {
    if names == [] then table
    else
      var t := if table.Some? then table.value else map[];
      Some(t[e := (if e in t then t[e] else []) + names])
  }

  /** The accumulator after a prefix of a round's annotated types, or the type whose annotation was not found. */
  datatype Collected = Collected(table: Option<Table>, missing: Option<TypeElement>)

  function CollectTypes(table: Option<Table>, types: seq<TypeElement>, annotationType: string,
                        matches: (string, string) -> bool): Collected
  {
    if types == [] then Collected(table, None)
    else
      var prev := CollectTypes(table, types[..|types| - 1], annotationType, matches);
      var e := types[|types| - 1];
      if prev.missing.Some? then prev
      else match FindAnnotation(e.annotations, annotationType)
        case None => Collected(prev.table, Some(e))
        case Some(settings) => Collected(Append(prev.table, e, RecordedNames(e.enclosed, e.isStatic, settings, matches)), None)
  }

  /** The accumulation part of one round. */
  function Collect(table: Option<Table>, round: Round, matches: (string, string) -> bool): Collected
  {
    if round.annotationType.None? then Collected(table, None)
    else CollectTypes(table, round.annotated, round.annotationType.value, matches)
  }

  /** `Collections.frequency(names, x)`. */
  function Frequency(names: seq<string>, x: string): nat
  {
    if names == [] then 0
    else (if names[0] == x then 1 else 0) + Frequency(names[1..], x)
  }

  /** The names that occur more than once in `names` (the stream of the final check). */
  function Duplicates(names: seq<string>): set<string>
  {
    set x | x in names && Frequency(names, x) > 1
  }

  /** No name is recorded twice. */
  predicate Distinct(names: seq<string>)
  {
    forall i, j :: 0 <= i < j < |names| ==> names[i] != names[j]
  }

  /** The state invariant: the accumulator is null, or non-empty with non-empty lists. */
  predicate WellFormed(table: Option<Table>)
  {
    table.Some? ==> |table.value| > 0 && forall e :: e in table.value ==> table.value[e] != []
  }

  /** Every list in `before` is a prefix of the list for the same type in `after`. */
  predicate Extends(before: Option<Table>, after: Option<Table>)
  {
    before.Some? ==> after.Some? && forall e :: e in before.value ==> e in after.value && before.value[e] <= after.value[e]
  }

  class RpcValidationProcessor {
    /** `elements`: null (None) until a first name is recorded, and again after a passing final round. */
    var elements: Option<Table>

    ghost predicate Valid()
      reads this
    {
      WellFormed(elements)
    }

    constructor ()
      ensures Valid() && elements == None
    {
      elements := None;
    }

    /**
     * One compiler round. Records the admitted method names of every annotated
     * type, then, in the last round, throws for a type that recorded a name
     * twice, or clears the accumulator.
     */
    method Process(round: Round, matches: (string, string) -> bool) returns (out: Outcome)
      requires Valid()
      modifies this
      ensures Valid()
      ensures var c := Collect(old(elements), round, matches);
        if c.missing.Some? then
          out == Threw(MissingAnnotation(c.missing.value, round.annotationType.value)) && elements == c.table
        else if !round.processingOver || c.table.None? then
          out == Returned(false) && elements == c.table
        else if exists e :: e in c.table.value && Duplicates(c.table.value[e]) != {} then
          elements == c.table &&
          exists e :: e in c.table.value && Duplicates(c.table.value[e]) != {} &&
                      out == Threw(DuplicateMethodNames(e.simpleName, Duplicates(c.table.value[e])))
        else
          out == Returned(false) && elements == None
    {
      if round.annotationType.Some? {
        var missing := CollectRound(round.annotationType.value, round.annotated, matches);
        if missing.Some? {
          out := Threw(MissingAnnotation(missing.value, round.annotationType.value));
          return;
        }
      }
      // the last round: look for a type with a repeated name
      if round.processingOver && elements.Some? {
        var offender := FindOffender(elements.value);
        if offender.Some? {
          var e := offender.value;
          out := Threw(DuplicateMethodNames(e.simpleName, Duplicates(elements.value[e])));
          return;
        }
        elements := None;
      }
      out := Returned(false);
    }

    /** The loop over a round's annotated types; stops at a type without the annotation. */
    method CollectRound(annotationType: string, types: seq<TypeElement>, matches: (string, string) -> bool)
      returns (missing: Option<TypeElement>)
      requires Valid()
      modifies this
      ensures Valid()
      ensures CollectTypes(old(elements), types, annotationType, matches) == Collected(elements, missing)
    {
      var i := 0;
      while i < |types|
        invariant 0 <= i <= |types|
        invariant CollectTypes(old(elements), types[..i], annotationType, matches) == Collected(elements, None)
        invariant Valid()
      {
        var element := types[i];
        assert types[..i + 1][..i] == types[..i];
        var annotation := FindAnnotation(element.annotations, annotationType);
        if annotation.None? {
          CollectStops(old(elements), types, i + 1, annotationType, matches);
          return Some(element);
        }
        RecordMembers(element, annotation.value, matches);
        i := i + 1;
      }
      assert types[..|types|] == types;
      missing := None;
    }

    /** The loop over one type's enclosed elements. */
    method RecordMembers(element: TypeElement, settings: AnnotationMirror, matches: (string, string) -> bool)
      requires Valid()
      modifies this
      ensures Valid()
      ensures elements == Append(old(elements), element, RecordedNames(element.enclosed, element.isStatic, settings, matches))
    {
      for j := 0 to |element.enclosed|
        invariant elements == Append(old(elements), element, RecordedNames(element.enclosed[..j], element.isStatic, settings, matches))
        invariant Valid()
      {
        var member := element.enclosed[j];
        ghost var recordedSoFar := RecordedNames(element.enclosed[..j], element.isStatic, settings, matches);
        assert element.enclosed[..j + 1][..j] == element.enclosed[..j];
        assert recordedSoFar + [] == recordedSoFar;
        assert RecordedNames(element.enclosed[..j + 1], element.isStatic, settings, matches)
            == if Recorded(member, element.isStatic, settings, matches) then recordedSoFar + [member.simpleName] else recordedSoFar;
        // only METHOD members count
        if member.kind != Method {
          continue;
        }
        // without includeStaticMethods a static TYPE (not a static member) contributes nothing
        if !settings.includeStaticMethods && element.isStatic {
          continue;
        }
        // a name the exclude pattern removes is dropped
        if settings.excludePattern != "" && matches(member.simpleName, settings.excludePattern) {
          continue;
        }
        AppendAppend(old(elements), element, recordedSoFar, [member.simpleName]);
        ghost var prev := elements;
        var t := if elements.Some? then elements.value else map[];
        elements := Some(t[element := (if element in t then t[element] else []) + [member.simpleName]]);
        assert elements == Append(prev, element, [member.simpleName]);
      }
      assert element.enclosed[..|element.enclosed|] == element.enclosed;
    }
  }

  /** The final loop over the accumulator: some type with a repeated name, or none if there is none. */
  method FindOffender(table: Table) returns (offender: Option<TypeElement>)
    ensures offender.Some? ==> offender.value in table && Duplicates(table[offender.value]) != {}
    ensures offender.None? ==> forall e :: e in table ==> Duplicates(table[e]) == {}
  {
    var unchecked := table.Keys;
    while unchecked != {}
      invariant unchecked <= table.Keys
      invariant forall e :: e in table && e !in unchecked ==> Duplicates(table[e]) == {}
      decreases unchecked
    {
      var e :| e in unchecked;
      if Duplicates(table[e]) != {} {
        return Some(e);
      }
      unchecked := unchecked - {e};
    }
    offender := None;
  }

  // ---------------------------------------------------------------------------
  // Lemmas about the accumulation

  lemma AppendAppend(table: Option<Table>, e: TypeElement, a: seq<string>, b: seq<string>)
    ensures Append(Append(table, e, a), e, b) == Append(table, e, a + b)
  {
    if a == [] {
      assert a + b == b;
    } else if b == [] {
      assert a + b == a;
    } else {
      var t := if table.Some? then table.value else map[];
      var prior := if e in t then t[e] else [];
      assert prior + a + b == prior + (a + b);
      assert a + b != [];
      assert Append(table, e, a) == Some(t[e := prior + a]);
      assert t[e := prior + a][e := prior + a + b] == t[e := prior + (a + b)];
    }
  }

  /** Once a round meets a type without the annotation, the rest of the round changes nothing. */
  lemma {:induction false} CollectStops(table: Option<Table>, types: seq<TypeElement>, k: nat, annotationType: string,
                                        matches: (string, string) -> bool)
    requires k <= |types|
    requires CollectTypes(table, types[..k], annotationType, matches).missing.Some?
    ensures CollectTypes(table, types, annotationType, matches) == CollectTypes(table, types[..k], annotationType, matches)
    decreases |types| - k
  {
    if k == |types| {
      assert types[..k] == types;
    } else {
      var front := types[..|types| - 1];
      assert front[..k] == types[..k];
      CollectStops(table, front, k, annotationType, matches);
    }
  }

  // ---------------------------------------------------------------------------
  // Lemmas about which names a type records

  /** Only METHOD members are ever recorded; fields, constructors and nested types never are. */
  lemma {:induction false} RecordsOnlyMethods(ms: seq<EnclosedElement>, typeIsStatic: bool, settings: AnnotationMirror,
                                              matches: (string, string) -> bool, x: string)
    requires x in RecordedNames(ms, typeIsStatic, settings, matches)
    ensures exists i :: 0 <= i < |ms| && ms[i].kind == Method && ms[i].simpleName == x
  {
    var front := ms[..|ms| - 1];
    if x in RecordedNames(front, typeIsStatic, settings, matches) {
      RecordsOnlyMethods(front, typeIsStatic, settings, matches, x);
      var i :| 0 <= i < |front| && front[i].kind == Method && front[i].simpleName == x;
      assert ms[i] == front[i];
    } else {
      assert ms[|ms| - 1].kind == Method && ms[|ms| - 1].simpleName == x;
    }
  }

  /** Without includeStaticMethods, a type that is itself static records no method at all. */
  lemma {:induction false} StaticTypeRecordsNothing(ms: seq<EnclosedElement>, settings: AnnotationMirror,
                                                    matches: (string, string) -> bool)
    requires !settings.includeStaticMethods
    ensures RecordedNames(ms, true, settings, matches) == []
  {
    if ms != [] {
      StaticTypeRecordsNothing(ms[..|ms| - 1], settings, matches);
    }
  }

  /**
   * When the type's own modifier does not cause skipping and the exclude
   * pattern is empty, every METHOD member is recorded in encounter order,
   * whatever its own STATIC modifier.
   */
  lemma {:induction false} EmptyPatternRecordsAllMethods(ms: seq<EnclosedElement>, typeIsStatic: bool,
                                                         settings: AnnotationMirror, matches: (string, string) -> bool)
    requires settings.includeStaticMethods || !typeIsStatic
    requires settings.excludePattern == ""
    ensures RecordedNames(ms, typeIsStatic, settings, matches) == MethodNames(ms)
  {
    if ms != [] {
      EmptyPatternRecordsAllMethods(ms[..|ms| - 1], typeIsStatic, settings, matches);
    }
  }

  /**
   * With a non-empty exclude pattern (and no static skipping), a name is
   * recorded exactly when some METHOD member has it and it does not match the
   * whole pattern.
   */
  lemma {:induction false} PatternExcludesExactlyMatches(ms: seq<EnclosedElement>, typeIsStatic: bool,
                                                         settings: AnnotationMirror, matches: (string, string) -> bool,
                                                         x: string)
    requires settings.includeStaticMethods || !typeIsStatic
    requires settings.excludePattern != ""
    ensures x in RecordedNames(ms, typeIsStatic, settings, matches)
        <==> (exists i :: 0 <= i < |ms| && ms[i].kind == Method && ms[i].simpleName == x)
             && !matches(x, settings.excludePattern)
  {
    if ms != [] {
      var front := ms[..|ms| - 1];
      PatternExcludesExactlyMatches(front, typeIsStatic, settings, matches, x);
      if exists i :: 0 <= i < |front| && front[i].kind == Method && front[i].simpleName == x {
        var i :| 0 <= i < |front| && front[i].kind == Method && front[i].simpleName == x;
        assert ms[i] == front[i];
      }
      if exists i :: 0 <= i < |ms| && ms[i].kind == Method && ms[i].simpleName == x {
        var i :| 0 <= i < |ms| && ms[i].kind == Method && ms[i].simpleName == x;
        if i < |front| {
          assert front[i] == ms[i];
        }
      }
    }
  }

  /**
   * When the type's own modifier does not cause skipping, a type records
   * exactly the names of its METHOD members, in encounter order and with
   * repetitions, minus those the exclude pattern removes.
   */
  lemma {:induction false} RecordedIsUnmatchedMethods(ms: seq<EnclosedElement>, typeIsStatic: bool,
                                                      settings: AnnotationMirror, matches: (string, string) -> bool)
    requires settings.includeStaticMethods || !typeIsStatic
    ensures RecordedNames(ms, typeIsStatic, settings, matches) == Unmatched(MethodNames(ms), settings.excludePattern, matches)
  {
    if ms != [] {
      var front := ms[..|ms| - 1];
      var last := ms[|ms| - 1];
      RecordedIsUnmatchedMethods(front, typeIsStatic, settings, matches);
      var before := MethodNames(front);
      if last.kind == Method {
        assert (before + [last.simpleName])[..|before|] == before;
      } else {
        assert before + [] == before;
      }
    }
  }

  /** The exclude pattern removes every occurrence of the names it matches and keeps every other one. */
  lemma {:induction false} UnmatchedFrequency(names: seq<string>, pattern: string, matches: (string, string) -> bool,
                                              x: string)
    ensures Frequency(Unmatched(names, pattern, matches), x) == if Excluded(x, pattern, matches) then 0 else Frequency(names, x)
  {
    if names != [] {
      var front := names[..|names| - 1];
      var last := names[|names| - 1];
      UnmatchedFrequency(front, pattern, matches, x);
      assert names == front + [last];
      FrequencyAppend(front, [last], x);
      var kept := if Excluded(last, pattern, matches) then [] else [last];
      FrequencyAppend(Unmatched(front, pattern, matches), kept, x);
    }
  }

  /** A METHOD member's name occurs in the method names. */
  lemma {:induction false} MethodNameListed(ms: seq<EnclosedElement>, i: int)
    requires 0 <= i < |ms| && ms[i].kind == Method
    ensures Frequency(MethodNames(ms), ms[i].simpleName) > 0
  {
    var front := ms[..|ms| - 1];
    var last := ms[|ms| - 1];
    var tail := if last.kind == Method then [last.simpleName] else [];
    FrequencyAppend(MethodNames(front), tail, ms[i].simpleName);
    if i < |front| {
      assert front[i] == ms[i];
      MethodNameListed(front, i);
    }
  }

  /** Two METHOD members with one name (overloads) put that name twice into the method names. */
  lemma {:induction false} OverloadsListedTwice(ms: seq<EnclosedElement>, i: int, j: int)
    requires 0 <= i < j < |ms| && ms[i].kind == Method && ms[j].kind == Method
    requires ms[i].simpleName == ms[j].simpleName
    ensures Frequency(MethodNames(ms), ms[i].simpleName) > 1
  {
    var front := ms[..|ms| - 1];
    var last := ms[|ms| - 1];
    var tail := if last.kind == Method then [last.simpleName] else [];
    FrequencyAppend(MethodNames(front), tail, ms[i].simpleName);
    assert front[i] == ms[i];
    if j < |front| {
      assert front[j] == ms[j];
      OverloadsListedTwice(front, i, j);
    } else {
      MethodNameListed(front, i);
    }
  }

  /**
   * Overloads are duplicates: two METHOD members sharing a name that the
   * exclude pattern leaves make that name a duplicate of the type, unless the
   * type's own modifier skips all its members.
   */
  lemma OverloadsAreDuplicates(ms: seq<EnclosedElement>, typeIsStatic: bool, settings: AnnotationMirror,
                               matches: (string, string) -> bool, i: int, j: int)
    requires settings.includeStaticMethods || !typeIsStatic
    requires 0 <= i < j < |ms| && ms[i].kind == Method && ms[j].kind == Method
    requires ms[i].simpleName == ms[j].simpleName
    requires !Excluded(ms[i].simpleName, settings.excludePattern, matches)
    ensures ms[i].simpleName in Duplicates(RecordedNames(ms, typeIsStatic, settings, matches))
  {
    var x := ms[i].simpleName;
    RecordedIsUnmatchedMethods(ms, typeIsStatic, settings, matches);
    UnmatchedFrequency(MethodNames(ms), settings.excludePattern, matches, x);
    OverloadsListedTwice(ms, i, j);
    FrequencyPositive(RecordedNames(ms, typeIsStatic, settings, matches), x);
  }

  /**
   * A type's duplicate set is the duplicate set of its METHOD names, minus the
   * names the exclude pattern removes, unless the type's modifier skips all.
   */
  lemma RecordedDuplicates(ms: seq<EnclosedElement>, typeIsStatic: bool, settings: AnnotationMirror,
                           matches: (string, string) -> bool, x: string)
    requires settings.includeStaticMethods || !typeIsStatic
    ensures x in Duplicates(RecordedNames(ms, typeIsStatic, settings, matches))
        <==> x in Duplicates(MethodNames(ms)) && !Excluded(x, settings.excludePattern, matches)
  {
    var recorded := RecordedNames(ms, typeIsStatic, settings, matches);
    RecordedIsUnmatchedMethods(ms, typeIsStatic, settings, matches);
    UnmatchedFrequency(MethodNames(ms), settings.excludePattern, matches, x);
    FrequencyPositive(recorded, x);
    FrequencyPositive(MethodNames(ms), x);
  }

  // ---------------------------------------------------------------------------
  // Lemmas about the accumulator across rounds

  /** A round only appends: every type's list before it is a prefix of its list after it, and WellFormed is kept. */
  lemma {:induction false} CollectTypesAppends(table: Option<Table>, types: seq<TypeElement>, annotationType: string,
                                               matches: (string, string) -> bool)
    requires WellFormed(table)
    ensures var after := CollectTypes(table, types, annotationType, matches).table;
      Extends(table, after) && WellFormed(after)
  {
    if types != [] {
      var front := types[..|types| - 1];
      CollectTypesAppends(table, front, annotationType, matches);
      var prev := CollectTypes(table, front, annotationType, matches);
      var e := types[|types| - 1];
      if prev.missing.None? {
        var a := FindAnnotation(e.annotations, annotationType);
        if a.Some? {
          AppendExtends(prev.table, e, RecordedNames(e.enclosed, e.isStatic, a.value, matches));
          ExtendsTransitive(table, prev.table, CollectTypes(table, types, annotationType, matches).table);
        }
      }
    }
  }

  lemma AppendExtends(table: Option<Table>, e: TypeElement, names: seq<string>)
    requires WellFormed(table)
    ensures Extends(table, Append(table, e, names)) && WellFormed(Append(table, e, names))
    ensures Append(table, e, names).Some? && e in Append(table, e, names).value ==>
      Append(table, e, names).value[e] == (if table.Some? && e in table.value then table.value[e] else []) + names
  {
  }

  lemma ExtendsTransitive(a: Option<Table>, b: Option<Table>, c: Option<Table>)
    requires Extends(a, b) && Extends(b, c)
    ensures Extends(a, c)
  {
  }

  /**
   * Names are never de-duplicated: a name that a type recorded before and
   * records again (in a later round, or a later declaration) is a duplicate.
   */
  lemma RecordedAgainIsDuplicate(table: Option<Table>, e: TypeElement, names: seq<string>, x: string)
    requires table.Some? && e in table.value && x in table.value[e]
    requires x in names
    ensures x in Duplicates(Append(table, e, names).value[e])
  {
    var prior := table.value[e];
    var i :| 0 <= i < |prior| && prior[i] == x;
    var j :| 0 <= j < |names| && names[j] == x;
    var all := prior + names;
    assert all[i] == x && all[|prior| + j] == x;
    RepeatedIffFrequency(all, x);
    FrequencyPositive(all, x);
  }

  // ---------------------------------------------------------------------------
  // Lemmas about the duplicate set

  /** Frequencies add up over a concatenation. */
  lemma {:induction false} FrequencyAppend(a: seq<string>, b: seq<string>, x: string)
    ensures Frequency(a + b, x) == Frequency(a, x) + Frequency(b, x)
  {
    if a == [] {
      assert a + b == b;
    } else {
      assert (a + b)[1..] == a[1..] + b;
      FrequencyAppend(a[1..], b, x);
    }
  }

  /** `Collections.frequency(names, x)` is positive exactly when `x` occurs in `names`. */
  lemma {:induction false} FrequencyPositive(names: seq<string>, x: string)
    ensures Frequency(names, x) > 0 <==> x in names
  {
    if names != [] {
      FrequencyPositive(names[1..], x);
      assert names == [names[0]] + names[1..];
    }
  }

  /** `Collections.frequency(names, x) > 1` exactly when `x` sits at two different positions. */
  lemma {:induction false} RepeatedIffFrequency(names: seq<string>, x: string)
    ensures Frequency(names, x) > 1 <==> exists i, j :: 0 <= i < j < |names| && names[i] == x && names[j] == x
  {
    if names != [] {
      var tail := names[1..];
      RepeatedIffFrequency(tail, x);
      FrequencyPositive(tail, x);
      if Frequency(names, x) > 1 {
        if names[0] == x {
          var j :| 0 <= j < |tail| && tail[j] == x;
          assert names[0] == x && names[j + 1] == x;
        } else {
          var i, j :| 0 <= i < j < |tail| && tail[i] == x && tail[j] == x;
          assert names[i + 1] == x && names[j + 1] == x;
        }
      }
      if exists i, j :: 0 <= i < j < |names| && names[i] == x && names[j] == x {
        var i, j :| 0 <= i < j < |names| && names[i] == x && names[j] == x;
        if i == 0 {
          assert tail[j - 1] == x;
        } else {
          assert tail[i - 1] == x && tail[j - 1] == x;
        }
      }
    }
  }

  /** The reported set holds exactly the names recorded at two different positions. */
  lemma DuplicatesAreRepeated(names: seq<string>, x: string)
    ensures x in Duplicates(names) <==> exists i, j :: 0 <= i < j < |names| && names[i] == x && names[j] == x
  {
    RepeatedIffFrequency(names, x);
    FrequencyPositive(names, x);
  }

  /** A type passes the final check exactly when its recorded names are pairwise different. */
  lemma NoDuplicatesIffDistinct(names: seq<string>)
    ensures Duplicates(names) == {} <==> Distinct(names)
  {
    if !Distinct(names) {
      var i, j :| 0 <= i < j < |names| && names[i] == names[j];
      DuplicatesAreRepeated(names, names[i]);
    }
    if Duplicates(names) != {} {
      var x :| x in Duplicates(names);
      DuplicatesAreRepeated(names, x);
    }
  }

  /**
   * The final round passes (no type is reported) exactly when every type's
   * recorded names are pairwise different.
   */
  lemma FinalCheckPassesIffDistinct(table: Table)
    ensures (forall e :: e in table ==> Duplicates(table[e]) == {}) <==> (forall e :: e in table ==> Distinct(table[e]))
  {
    forall e | e in table
      ensures Duplicates(table[e]) == {} <==> Distinct(table[e])
    {
      NoDuplicatesIffDistinct(table[e]);
    }
  }
}
