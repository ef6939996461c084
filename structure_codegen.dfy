/**
 * The generator behind `add_struct` and `add_union`: it instantiates the type a script passes,
 * checks that the runtime type of that instance, and of the instance of every annotated member
 * type, extends `ImHexType` directly, and builds the pattern-language declaration text, one member
 * line per annotation in insertion order.
 */
module StructureCodegen {
  import opened Common
  import opened PyObjects
  import opened PatternText

  const CLASS_BASE_MESSAGE: string := "class type must extend from ImHexType"
  const MEMBER_BASE_MESSAGE: string := "member needs to have a annotation extending from ImHexType"

  /** The most annotations a `u16` counter can walk through and still reach the end of the list. */
  const MAX_ANNOTATIONS: nat := 0xFFFF

  /** An annotation is accepted when its type instantiates to an object whose type extends `ImHexType`. */
  predicate MemberAccepted(a: Annotation)
  {
    && a.memberType.Some?
    && Instantiate(a.memberType.value).Some?
    && ExtendsImHexType(Instantiate(a.memberType.value).value)
  }

  /**
   * Resolves one annotation into a declaration member: the runtime type name of the instantiated
   * member type, and the annotation's name up to its first NUL (the name is appended as a C
   * string). A member type that cannot be instantiated is reported
   * as a `TypeError`, like one with the wrong base.
   */
  function ResolveMember(a: Annotation): (r: Result<Member, PyError>)
    ensures a.memberType.Some? && a.memberType.value.call.Raises? ==> r == Failure(TypeError(MEMBER_BASE_MESSAGE))
    ensures r.Success? <==> MemberAccepted(a)
    ensures MemberAccepted(a) ==> r == Success(Member(Instantiate(a.memberType.value).value.name, AsCString(a.memberName)))
    ensures r.Failure? ==> r.error == TypeError(MEMBER_BASE_MESSAGE)
  {
    match a.memberType
    case None => Failure(TypeError(MEMBER_BASE_MESSAGE))
    case Some(t) =>
      match Instantiate(t)
      case None => Failure(TypeError(MEMBER_BASE_MESSAGE))
      case Some(instanceType) =>
        if !ExtendsImHexType(instanceType) then Failure(TypeError(MEMBER_BASE_MESSAGE))
        else Success(Member(instanceType.name, AsCString(a.memberName)))
  }

  /**
   * Resolves the annotations in order, stopping at the first one that is rejected. It succeeds
   * exactly when every annotation is accepted, and then yields one member per annotation, in
   * order, named by the instantiated member's runtime type and not by the annotation itself.
   */
  function ResolveMembers(items: seq<Annotation>): (r: Result<seq<Member>, PyError>)
    ensures r.Success? <==> forall k :: 0 <= k < |items| ==> MemberAccepted(items[k])
    ensures r.Success? ==> |r.value| == |items|
    ensures r.Success? ==> forall k :: 0 <= k < |items| ==>
      MemberAccepted(items[k]) &&
      r.value[k] == Member(Instantiate(items[k].memberType.value).value.name, AsCString(items[k].memberName))
    ensures r.Failure? ==> r.error == TypeError(MEMBER_BASE_MESSAGE)
  {
    if items == [] then Success([])
    else
      match ResolveMembers(items[..|items| - 1])
      case Failure(e) => Failure(e)
      case Success(members) =>
        match ResolveMember(items[|items| - 1])
        case Failure(e) => Failure(e)
        case Success(m) => Success(members + [m])
  }

  /** The annotation items of the instantiated argument's type, when the metadata is all there. */
  function AnnotationItems(args: seq<TypeObject>): (r: Option<seq<Annotation>>)
    ensures r.Some? ==> |args| > 0 && Instantiate(args[0]).Some?
  {
    if |args| == 0 then None
    else
      match Instantiate(args[0])
      case None => None
      case Some(instanceType) =>
        if instanceType.dict.Some? && instanceType.dict.value.annotations.Items? then
          Some(instanceType.dict.value.annotations.items)
        else None
  }

  /** The call gets past every check that comes before the member loop. */
  predicate ReachesMemberLoop(args: seq<TypeObject>)
  {
    AnnotationItems(args).Some? && ExtendsImHexType(Instantiate(args[0]).value)
  }

  /**
   * The generator's loop ends: it is never reached, the list is short enough for the `u16`
   * counter, or one of the first 65536 annotations is rejected and its early return leaves the
   * loop before the counter wraps.
   */
  predicate AnnotationLoopEnds(args: seq<TypeObject>)
  {
    ReachesMemberLoop(args) ==> MemberLoopEnds(AnnotationItems(args).value)
  }

  /** The member loop over `list` ends: the list fits the `u16` counter, or an early member is rejected. */
  predicate MemberLoopEnds(list: seq<Annotation>)
  {
    |list| > MAX_ANNOTATIONS ==> exists k :: 0 <= k <= MAX_ANNOTATIONS && !MemberAccepted(list[k])
  }

  /**
   * The declaration `createStructureType` describes for the positional arguments `args`, or the
   * exception it raises. Checks run in the source's order: the argument, its instantiation, the
   * direct base of the instance's type, the type dictionary, the `__annotations__` entry and its
   * items, then every member.
   */
  function ResolveDeclaration(keyword: string, args: seq<TypeObject>): (r: Result<Declaration, PyError>)
    ensures r.Success? ==>
      && ReachesMemberLoop(args)
      && r.value.keyword == keyword
      && r.value.typeName == Instantiate(args[0]).value.name
      && ResolveMembers(AnnotationItems(args).value) == Success(r.value.members)
    ensures ReachesMemberLoop(args) ==> (r.Success? <==> ResolveMembers(AnnotationItems(args).value).Success?)
    ensures r.Failure? ==>
      r.error == BadArgument || r.error == TypeError(CLASS_BASE_MESSAGE) || r.error == TypeError(MEMBER_BASE_MESSAGE)
  {
    if |args| == 0 then Failure(BadArgument)
    else
      match Instantiate(args[0])
      case None => Failure(BadArgument)
      case Some(instanceType) =>
        if !ExtendsImHexType(instanceType) then Failure(TypeError(CLASS_BASE_MESSAGE))
        else
          match instanceType.dict
          case None => Failure(BadArgument)
          case Some(dict) =>
            match dict.annotations
            case Missing => Failure(BadArgument)
            case NotADict => Failure(BadArgument)
            case Items(items) =>
              match ResolveMembers(items)
              case Failure(e) => Failure(e)
              case Success(members) => Success(Declaration(keyword, instanceType.name, members))
  }

  /** The text `createStructureType` posts for `args`, or the exception it raises instead. */
  function DeclarationCode(keyword: string, args: seq<TypeObject>): (r: Result<string, PyError>)
    ensures r.Success? <==> ResolveDeclaration(keyword, args).Success?
    ensures r.Success? ==> r.value == DeclarationText(ResolveDeclaration(keyword, args).value)
    ensures r.Failure? ==> r.error == ResolveDeclaration(keyword, args).error
  {
    match ResolveDeclaration(keyword, args)
    case Failure(e) => Failure(e)
    case Success(d) => Success(DeclarationText(d))
  }

  /**
   * Lines 72-135 of `createStructureType`: the checks on the argument and its type, then the member
   * loop (`BuildMembersCode`). It returns the text that is to be posted, or the exception; nothing
   * partial escapes a failing member. For a member whose constructor raises it takes the corrected
   * path (the `TypeError`, with no `Py_DECREF` of the null result); `CheckMemberInstanceAsWritten`
   * is the path as written.
   */
  method BuildStructureCode(keyword: string, args: seq<TypeObject>) returns (r: Result<string, PyError>)
    requires AnnotationLoopEnds(args)
    ensures r == DeclarationCode(keyword, args)
  {
    if |args| == 0 {
      return Failure(BadArgument);
    }
    var instance := Instantiate(args[0]);
    if instance.None? {
      return Failure(BadArgument);
    }
    var instanceType := instance.value;
    if instanceType.base.None? || instanceType.base.value != MARKER_TYPE_NAME {
      return Failure(TypeError(CLASS_BASE_MESSAGE));
    }
    if instanceType.dict.None? {
      return Failure(BadArgument);
    }
    var annotations := instanceType.dict.value.annotations;
    if annotations.Missing? {
      return Failure(BadArgument);
    }
    if annotations.NotADict? {
      return Failure(BadArgument);
    }
    var list := annotations.items;
    AcceptedOuterType(keyword, args, instanceType, list);
    r := BuildMembersCode(keyword, instanceType.name, list);
  }

  /**
   * Lines 111-135 of `createStructureType`: the header line, then the loop that grows `code` one
   * member line at a time with a `u16` counter, then the closing line. A rejected member returns
   * the member `TypeError` at once, so nothing partial escapes.
   */
  method BuildMembersCode(keyword: string, typeName: string, list: seq<Annotation>) returns (r: Result<string, PyError>)
    requires MemberLoopEnds(list)
    ensures ResolveMembers(list).Failure? ==> r == Failure(ResolveMembers(list).error)
    ensures ResolveMembers(list).Success? ==>
      r == Success(DeclarationText(Declaration(keyword, typeName, ResolveMembers(list).value)))
  {
    var code := HeaderLine(keyword, typeName) + "\n";
    ghost var members: seq<Member> := [];
    var i: u16 := 0;
    while (i as int) < |list|
      invariant i as int <= |list|
      invariant ResolveMembers(list[..i as int]) == Success(members)
      invariant code == HeaderLine(keyword, typeName) + "\n" + Body(members)
    {
      var item := list[i];
      // `PyUnicode_AsUTF8` gives a C string; appending it to `code` stops at its first NUL.
      var memberName := AsCString(item.memberName);
      var memberType := item.memberType;
      if memberType.None? {
        assert !MemberAccepted(list[i]);
        return Failure(TypeError(MEMBER_BASE_MESSAGE));
      }
      var memberTypeInstance := Instantiate(memberType.value);
      if memberTypeInstance.None? || memberTypeInstance.value.base.None? || memberTypeInstance.value.base.value != MARKER_TYPE_NAME {
        assert !MemberAccepted(list[i]);
        return Failure(TypeError(MEMBER_BASE_MESSAGE));
      }
      var member := Member(memberTypeInstance.value.name, memberName);
      var line := MemberLine(member) + "\n";
      assert member == Member(Instantiate(list[i].memberType.value).value.name, AsCString(list[i].memberName));
      ResolveNextMember(list, i as int, members, HeaderLine(keyword, typeName) + "\n");
      code := code + line;
      members := members + [member];
      CounterStaysBelowWrap(list, i as int);
      var next := IncrementU16(i);
      assert next as int == i as int + 1;
      i := next;
    }
    code := code + FOOTER_LINE + "\n";
    assert list[..i as int] == list;
    r := Success(code);
  }

  /** Once the outer type passes its checks, the declaration is decided by its annotation items alone. */
  lemma AcceptedOuterType(keyword: string, args: seq<TypeObject>, instanceType: TypeObject, list: seq<Annotation>)
    requires |args| > 0 && Instantiate(args[0]) == Some(instanceType) && ExtendsImHexType(instanceType)
    requires instanceType.dict.Some? && instanceType.dict.value.annotations == Items(list)
    ensures AnnotationItems(args) == Some(list)
    ensures DeclarationCode(keyword, args) ==
      match ResolveMembers(list)
      case Failure(e) => Failure(e)
      case Success(members) => Success(DeclarationText(Declaration(keyword, instanceType.name, members)))
  {
  }

  /**
   * Under `MemberLoopEnds`, every iteration that accepts its member runs with the counter below
   * 65535, so `i++` never wraps: either the list is short, or the rejected member lies further on.
   */
  lemma CounterStaysBelowWrap(list: seq<Annotation>, i: nat)
    requires MemberLoopEnds(list)
    requires i < |list| && ResolveMembers(list[..i + 1]).Success?
    ensures i < MAX_ANNOTATIONS
  {
    if |list| > MAX_ANNOTATIONS {
      var prefix := list[..i + 1];
      assert forall j :: 0 <= j < |prefix| ==> MemberAccepted(prefix[j]);
      assert forall j :: 0 <= j <= i ==> MemberAccepted(list[j]) by {
        assert forall j :: 0 <= j <= i ==> prefix[j] == list[j];
      }
      var k :| 0 <= k <= MAX_ANNOTATIONS && !MemberAccepted(list[k]);
      assert k > i;
    }
  }

  /** One more accepted annotation extends the resolved prefix and the body by its member line. */
  lemma ResolveNextMember(list: seq<Annotation>, i: nat, members: seq<Member>, header: string)
    requires i < |list| && MemberAccepted(list[i])
    requires ResolveMembers(list[..i]) == Success(members)
    ensures var m := Member(Instantiate(list[i].memberType.value).value.name, AsCString(list[i].memberName));
      && ResolveMembers(list[..i + 1]) == Success(members + [m])
      && header + Body(members + [m]) == (header + Body(members)) + (MemberLine(m) + "\n")
  {
    var m := Member(Instantiate(list[i].memberType.value).value.name, AsCString(list[i].memberName));
    assert list[..i + 1][..i] == list[..i];
    assert ResolveMember(list[i]) == Success(m);
    BodyAppend(members, m, header);
  }

  lemma BodyAppend(members: seq<Member>, m: Member, header: string)
    ensures header + Body(members + [m]) == (header + Body(members)) + (MemberLine(m) + "\n")
  {
    assert (members + [m])[..|members|] == members;
    assert Body(members + [m]) == Body(members) + MemberLine(m) + "\n";
  }

  /** `i++` on a `u16`: the sum is truncated to 16 bits. */
  function IncrementU16(i: u16): (r: u16)
    ensures i as int < MAX_ANNOTATIONS ==> r as int == i as int + 1
    ensures i as int == MAX_ANNOTATIONS ==> r == 0
  {
    ((i as int + 1) % 0x1_0000) as u16
  }

  /** The value of the generator's counter after `steps` iterations of its loop. */
  function CounterAfter(steps: nat): u16
  {
    if steps == 0 then 0 else IncrementU16(CounterAfter(steps - 1))
  }

  /** The counter equals the number of iterations taken modulo 2^16. */
  lemma {:induction false} CounterAfterWraps(steps: nat)
    ensures CounterAfter(steps) as int == steps % 0x1_0000
  {
    if steps > 0 {
      CounterAfterWraps(steps - 1);
      SuccessorModulo(steps - 1);
      assert CounterAfter(steps) == IncrementU16(CounterAfter(steps - 1));
    }
  }

  /** Taking one more step adds one to the remainder modulo 2^16, or wraps it from 65535 to 0. */
  lemma SuccessorModulo(n: nat)
    ensures n % 0x1_0000 < MAX_ANNOTATIONS ==> (n + 1) % 0x1_0000 == n % 0x1_0000 + 1
    ensures n % 0x1_0000 == MAX_ANNOTATIONS ==> (n + 1) % 0x1_0000 == 0
  {
    var q := n / 0x1_0000;
    assert n == q * 0x1_0000 + n % 0x1_0000;
  }

  /**
   * With more annotations than `MAX_ANNOTATIONS`, the loop condition `i < PyList_Size(list)` holds
   * after every number of iterations: the guard alone never ends the loop, only a rejected member's
   * early return does.
   */
  lemma CounterNeverReachesLongList(listSize: nat, steps: nat)
    requires listSize > MAX_ANNOTATIONS
    ensures (CounterAfter(steps) as int) < listSize
  {
  }

  /** Up to `MAX_ANNOTATIONS` iterations, the counter is the iteration count, so the loop does reach the end. */
  lemma CounterCountsShortList(steps: nat)
    requires steps <= MAX_ANNOTATIONS
    ensures CounterAfter(steps) as int == steps
  {
    CounterAfterWraps(steps);
  }

  /**
   * The inputs `AnnotationLoopEnds` excludes, as written: the outer type passes its checks, it has
   * more than 65535 annotations and none of the first 65536 is rejected. After any number of
   * iterations the counter still points into the list at an accepted member, so the loop neither
   * leaves through its guard nor through an early return, and appends member lines forever.
   */
  lemma EndlessLoopInputs(args: seq<TypeObject>)
    requires !AnnotationLoopEnds(args)
    ensures ReachesMemberLoop(args) && |AnnotationItems(args).value| > MAX_ANNOTATIONS
    ensures forall steps: nat ::
              CounterAfter(steps) as int < |AnnotationItems(args).value|
              && MemberAccepted(AnnotationItems(args).value[CounterAfter(steps)])
  {
    var items := AnnotationItems(args).value;
    forall steps: nat
      ensures CounterAfter(steps) as int < |items| && MemberAccepted(items[CounterAfter(steps)])
    {
      CounterAfterWraps(steps);
    }
  }

  /** A member type the generator accepts, and a structure type with 65536 annotations of it. */
  const ACCEPTED_MEMBER_TYPE: TypeObject := TypeObject("u8", Some(MARKER_TYPE_NAME), None, ReturnsOwnInstance)
  /** The member name `m` repeated `k + 1` times. */
  function RepeatedName(k: nat): (name: string)
    ensures |name| == k + 1
  {
    seq(k + 1, _ => 'm')
  }

  /** `n` annotations of an accepted type, named `m`, `mm`, `mmm` and so on. */
  function AcceptedItems(n: nat): (items: seq<Annotation>)
    ensures |items| == n
    ensures forall k :: 0 <= k < n ==> items[k] == Annotation(RepeatedName(k), Some(ACCEPTED_MEMBER_TYPE))
  {
    seq(n, k requires 0 <= k => Annotation(RepeatedName(k), Some(ACCEPTED_MEMBER_TYPE)))
  }

  /** Their names are distinct, as dictionary keys are, and every one of them is accepted. */
  lemma AcceptedItemsDistinct(n: nat)
    ensures DistinctNames(AcceptedItems(n))
    ensures forall k :: 0 <= k < n ==> MemberAccepted(AcceptedItems(n)[k])
  {
    var items := AcceptedItems(n);
    forall i, j | 0 <= i < j < n
      ensures items[i].memberName != items[j].memberName
    {
      assert |items[i].memberName| == i + 1 && |items[j].memberName| == j + 1;
    }
  }

  const LONG_ITEMS: seq<Annotation> := AcceptedItems(MAX_ANNOTATIONS + 1)
  const LONG_STRUCTURE_TYPE: TypeObject :=
    TypeObject("Long", Some(MARKER_TYPE_NAME), Some(TypeDict(Items(LONG_ITEMS))), ReturnsOwnInstance)

  /**
   * A structure type with 65536 accepted annotations under distinct names is such an input: as
   * written, its loop never ends, though its declaration exists.
   */
  lemma LongStructureLoopsForever()
    ensures AnnotationItems([LONG_STRUCTURE_TYPE]) == Some(LONG_ITEMS)
    ensures DistinctNames(LONG_ITEMS)
    ensures !AnnotationLoopEnds([LONG_STRUCTURE_TYPE])
    ensures DeclarationCode("struct", [LONG_STRUCTURE_TYPE]).Success?
  {
    AcceptedItemsDistinct(MAX_ANNOTATIONS + 1);
    AllAcceptedLongListLoops(LONG_STRUCTURE_TYPE, LONG_ITEMS);
  }

  /** An `ImHexType` child with more than 65535 annotations, all accepted, loops as written yet has a declaration. */
  lemma AllAcceptedLongListLoops(t: TypeObject, items: seq<Annotation>)
    requires Instantiate(t) == Some(t) && ExtendsImHexType(t) && t.dict == Some(TypeDict(Items(items)))
    requires |items| > MAX_ANNOTATIONS && forall k :: 0 <= k < |items| ==> MemberAccepted(items[k])
    ensures AnnotationItems([t]) == Some(items)
    ensures !AnnotationLoopEnds([t])
    ensures DeclarationCode("struct", [t]).Success?
  {
    AcceptedOuterType("struct", [t], t, items);
  }

  /**
   * A structure type whose `__annotations__` dictionary is empty gives the declaration with an
   * empty body: `keyword + " " + name + " {\n};\n"`, where `name` is the instance's runtime type name.
   */
  lemma EmptyAnnotationsDeclaration(keyword: string, t: TypeObject)
    requires Instantiate(t).Some? && ExtendsImHexType(Instantiate(t).value)
    requires Instantiate(t).value.dict == Some(TypeDict(Items([])))
    ensures DeclarationCode(keyword, [t]) == Success(keyword + " " + Instantiate(t).value.name + " {\n};\n")
  {
    AcceptedOuterType(keyword, [t], Instantiate(t).value, []);
    assert ResolveMembers([]) == Success([]);
    EmptyDeclaration(keyword, Instantiate(t).value.name);
  }

  /** An annotation name holding a NUL is cut there: `{"a\0b": u8}` emits the member line `   u8 a;`. */
  lemma NulEndsMemberName()
    ensures ResolveMember(Annotation("a\0b", Some(ACCEPTED_MEMBER_TYPE))) == Success(Member("u8", "a"))
    ensures MemberLine(Member("u8", "a")) == "   u8 a;"
  {
    assert AsCString("a\0b") == "a" by {
      assert "a\0b"[1..] == "\0b";
    }
  }

  /** A type whose direct base is missing or is not `ImHexType` is rejected whatever its annotations are. */
  lemma OuterBaseRejected(keyword: string, args: seq<TypeObject>)
    requires |args| > 0 && Instantiate(args[0]).Some?
    requires !ExtendsImHexType(Instantiate(args[0]).value)
    ensures DeclarationCode(keyword, args) == Failure(TypeError(CLASS_BASE_MESSAGE))
  {
  }

  /**
   * A missing argument, a failing instantiation, a missing type dictionary or a missing or unusable
   * `__annotations__` entry each raise `BadArgument` (the base check comes before the last three).
   */
  lemma MissingMetadataRejected(keyword: string, args: seq<TypeObject>)
    ensures |args| == 0 ==> DeclarationCode(keyword, args) == Failure(BadArgument)
    ensures |args| > 0 && args[0].call.Raises? ==> DeclarationCode(keyword, args) == Failure(BadArgument)
    ensures (|args| > 0 && Instantiate(args[0]).Some? && ExtendsImHexType(Instantiate(args[0]).value)
             && AnnotationItems(args).None?) ==> DeclarationCode(keyword, args) == Failure(BadArgument)
  {
  }

  /** One rejected member rejects the whole declaration. */
  lemma RejectedMemberRejectsAll(keyword: string, args: seq<TypeObject>, k: nat)
    requires AnnotationItems(args).Some? && k < |AnnotationItems(args).value|
    requires ExtendsImHexType(Instantiate(args[0]).value)
    requires !MemberAccepted(AnnotationItems(args).value[k])
    ensures DeclarationCode(keyword, args) == Failure(TypeError(MEMBER_BASE_MESSAGE))
  {
  }

  /**
   * An accepted declaration is headed by the keyword and the runtime name of the instantiated
   * argument's type, and lists exactly the annotations, in order, each under the runtime name of
   * its instantiated type. Its text reads back as that declaration when the names print plainly.
   */
  lemma AcceptedDeclaration(keyword: string, args: seq<TypeObject>)
    requires ResolveDeclaration(keyword, args).Success?
    ensures AnnotationItems(args).Some?
    ensures var d := ResolveDeclaration(keyword, args).value;
      var items := AnnotationItems(args).value;
      && ExtendsImHexType(Instantiate(args[0]).value)
      && d.keyword == keyword
      && d.typeName == Instantiate(args[0]).value.name
      && |d.members| == |items|
      && (forall k :: 0 <= k < |items| ==>
            MemberAccepted(items[k]) &&
            d.members[k] == Member(Instantiate(items[k].memberType.value).value.name, AsCString(items[k].memberName)))
      && DeclarationCode(keyword, args) == Success(DeclarationText(d))
      && (Printable(d) ==> ParseDeclaration(DeclarationText(d)) == Some(d))
  {
    var d := ResolveDeclaration(keyword, args).value;
    if Printable(d) {
      DeclarationRoundTrip(d);
    }
  }

  /**
   * `add_struct` and `add_union` differ only in the keyword: they accept and reject the same
   * arguments with the same exception, and their texts agree after the keyword.
   */
  lemma StructAndUnionAgree(args: seq<TypeObject>)
    ensures DeclarationCode("struct", args).Success? <==> DeclarationCode("union", args).Success?
    ensures DeclarationCode("struct", args).Failure? ==>
      DeclarationCode("struct", args).error == DeclarationCode("union", args).error
    ensures DeclarationCode("struct", args).Success? ==>
      && |DeclarationCode("union", args).value| >= 5
      && DeclarationCode("struct", args).value == "struct" + DeclarationCode("union", args).value[5..]
  {
    KeywordPrefixesCode("struct", args);
    KeywordPrefixesCode("union", args);
    var c := DeclarationCode("", args);
    if c.Success? {
      assert ("union" + c.value)[5..] == c.value;
    }
  }

  /** The text for `keyword` is the keyword put in front of the text for an empty keyword. */
  lemma KeywordPrefixesCode(keyword: string, args: seq<TypeObject>)
    ensures DeclarationCode(keyword, args).Success? <==> DeclarationCode("", args).Success?
    ensures DeclarationCode(keyword, args).Failure? ==>
      DeclarationCode(keyword, args).error == DeclarationCode("", args).error
    ensures DeclarationCode(keyword, args).Success? ==>
      DeclarationCode(keyword, args).value == keyword + DeclarationCode("", args).value
  {
    KeywordOnlyInDeclaration(keyword, args);
    var e := ResolveDeclaration("", args);
    if e.Success? {
      var d := e.value;
      assert ResolveDeclaration(keyword, args) == Success(d.(keyword := keyword));
      assert HeaderLine("", d.typeName) == " " + d.typeName + " {";
      assert HeaderLine(keyword, d.typeName) == keyword + HeaderLine("", d.typeName);
      assert DeclarationText(d.(keyword := keyword)) == keyword + DeclarationText(d);
    } else {
      assert ResolveDeclaration(keyword, args) == Failure(e.error);
    }
  }

  /** The keyword is carried into the declaration and changes nothing else about the outcome. */
  lemma KeywordOnlyInDeclaration(keyword: string, args: seq<TypeObject>)
    ensures ResolveDeclaration(keyword, args) ==
      match ResolveDeclaration("", args)
      case Failure(e) => Failure(e)
      case Success(d) => Success(d.(keyword := keyword))
  {
  }

  /**
   * The as-written failure path of a member (lines 123-127): the `TypeError` is set, then
   * `Py_DECREF(memberTypeInstance)` runs, which dereferences a null pointer when the member's
   * constructor raised.
   */
  datatype MemberCheckAsWritten = Passes(typeName: string) | RaisesTypeError | DecRefOfNull

  function CheckMemberInstanceAsWritten(memberTypeInstance: Option<TypeObject>): (r: MemberCheckAsWritten)
    ensures r.DecRefOfNull? <==> memberTypeInstance.None?
    ensures r.Passes? <==> memberTypeInstance.Some? && ExtendsImHexType(memberTypeInstance.value)
    ensures r.Passes? ==> r.typeName == memberTypeInstance.value.name
  {
    if memberTypeInstance.None? || !ExtendsImHexType(memberTypeInstance.value) then
      if memberTypeInstance.None? then DecRefOfNull else RaisesTypeError
    else Passes(memberTypeInstance.value.name)
  }

  /** A member type whose constructor raises reaches `Py_DECREF` with a null pointer as written. */
  lemma RaisingMemberDecRefsNull(a: Annotation)
    requires a.memberType.Some? && a.memberType.value.call.Raises?
    ensures CheckMemberInstanceAsWritten(Instantiate(a.memberType.value)) == DecRefOfNull
  {
  }
}
