/** The vocabulary-to-API-description transformation of the credit-risk proof of concept:
    it picks the classes out of the flat `defines` list of the NPL vocabulary, turns each into
    a Hydra class, finds and resolves the properties owned by a class, and synthesizes the
    canned CRUD operations of a class. */
module NplVocabParser {
  import opened Wrappers
  import opened Fragments
  import opened HydraDoc

  /** The `propertyOn` key of a definition: missing (or falsy), present but not a JSON
      object, or an object whose `@id` references the target class. */
  datatype PropertyOn = Absent | NonDict | Reference(refId: string)

  /** One element of the vocabulary's `defines` list. `propertyOf` is the `@id` of the
      owning-class object when that key is present and truthy. */
  datatype Entry = Entry(
    id: string,
    rdfType: string,
    rdfsLabel: string,
    rdfsComment: string,
    propertyOf: Option<string>,
    propertyOn: PropertyOn)

  /** The decoded vocabulary document. */
  datatype Vocab = Vocab(defines: seq<Entry>)

  /** The exceptions the parser lets escape: `split('#')[1]` on an id without `#`, and a
      class name missing from the label-to-class mapping. */
  datatype LookupError = IndexError | KeyError(key: string)

  const ClassType := "rdfs:Class"
  const DataPropertyType := "owl:DataProperty"
  const ObjectPropertyType := "owl:ObjectProperty"

  predicate IsClass(e: Entry) {
    e.rdfType == ClassType
  }

  // ---------------------------------------------------------------------------------------
  // get_all_classes

  /** The class-typed definitions, in their original order. */
  function ClassEntries(defines: seq<Entry>): seq<Entry>
  {
    if |defines| == 0 then []
    else
      var last := defines[|defines| - 1];
      ClassEntries(defines[..|defines| - 1]) + (if IsClass(last) then [last] else [])
  }

  /** Filtering respects order: the classes of a concatenation are those of each part, in turn. */
  lemma {:induction false} ClassEntriesAppend(a: seq<Entry>, b: seq<Entry>)
    ensures ClassEntries(a + b) == ClassEntries(a) + ClassEntries(b)
    decreases |b|
  {
    if |b| == 0 {
      assert a + b == a;
    } else {
      ClassEntriesAppend(a, b[..|b| - 1]);
      assert (a + b)[..|a + b| - 1] == a + b[..|b| - 1];
    }
  }

  /** Each class definition is kept as often as it occurs, and nothing else is kept. */
  lemma {:induction false} ClassEntriesCount(defines: seq<Entry>, e: Entry)
    ensures multiset(ClassEntries(defines))[e] == if IsClass(e) then multiset(defines)[e] else 0
  {
    if |defines| > 0 {
      var init := defines[..|defines| - 1];
      ClassEntriesCount(init, e);
      assert defines == init + [defines[|defines| - 1]];
    }
  }

  /** An entry is among the classes exactly when it is a definition typed `rdfs:Class`. */
  lemma {:induction false} ClassEntriesMembers(defines: seq<Entry>, e: Entry)
    ensures e in ClassEntries(defines) <==> e in defines && IsClass(e)
  {
    ClassEntriesCount(defines, e);
  }

  /** `get_all_classes`: walks `defines`, appending each class-typed entry. */
  method GetAllClasses(vocab: Vocab) returns (classes: seq<Entry>)
    ensures classes == ClassEntries(vocab.defines)
  {
    classes := [];
    var defines := vocab.defines;
    for i := 0 to |defines|
      invariant classes == ClassEntries(defines[..i])
    {
      var obj := defines[i];
      assert defines[..i + 1][..i] == defines[..i];
      if obj.rdfType == ClassType {
        classes := classes + [obj];
      }
    }
    assert defines[..|defines|] == defines;
  }

  // ---------------------------------------------------------------------------------------
  // create_hydra_classes

  /** `create_hydra_classes`: one endpoint class per vocabulary class, in order, whose title and
      description are the label and comment unchanged. The library derives the id from the
      title; `mint` stands for that derivation. */
  method CreateHydraClasses(vocabClasses: seq<Entry>, mint: string -> string) returns (hydraClasses: seq<HydraClass>)
    ensures |hydraClasses| == |vocabClasses|
    ensures forall i :: 0 <= i < |vocabClasses| ==>
      hydraClasses[i].title == vocabClasses[i].rdfsLabel &&
      hydraClasses[i].description == vocabClasses[i].rdfsComment &&
      hydraClasses[i].endpoint &&
      hydraClasses[i].id == mint(vocabClasses[i].rdfsLabel)
  {
    hydraClasses := [];
    for i := 0 to |vocabClasses|
      invariant |hydraClasses| == i
      invariant forall k :: 0 <= k < i ==>
        hydraClasses[k] == HydraClass(mint(vocabClasses[k].rdfsLabel), vocabClasses[k].rdfsLabel, vocabClasses[k].rdfsComment, true)
    {
      var vocabClass := vocabClasses[i];
      var hydraClass := HydraClass(mint(vocabClass.rdfsLabel), vocabClass.rdfsLabel, vocabClass.rdfsComment, true);
      hydraClasses := hydraClasses + [hydraClass];
    }
  }

  // ---------------------------------------------------------------------------------------
  // get_class_properties

  /** The ownership test as written: the fragment names the class, or the entry's type equals
      both property types at once. The second disjunct can never hold. */
  function OwnershipTest(fragment: string, className: string, rdfType: string): (owned: bool)
    ensures owned <==> fragment == className
  {
    fragment == className || (rdfType == DataPropertyType && rdfType == ObjectPropertyType)
  }

  /** An entry whose `propertyOf` reference has no `#`: `split('#')[1]` raises on it. */
  predicate BrokenReference(e: Entry) {
    e.propertyOf.Some? && Hash !in e.propertyOf.value
  }

  /** An entry whose `propertyOf` reference has `className` as its fragment. */
  predicate Owns(className: string, e: Entry) {
    e.propertyOf.Some? && Fragment(e.propertyOf.value) == Some(className)
  }

  /** What `get_class_properties` returns or raises for the definitions `defines`. */
  function OwnedProperties(className: string, defines: seq<Entry>): Result<seq<Entry>, LookupError>
  {
    if |defines| == 0 then Ok([])
    else
      var obj := defines[|defines| - 1];
      match OwnedProperties(className, defines[..|defines| - 1])
      case Err(e) => Err(e)
      case Ok(props) =>
        match obj.propertyOf
        case None => Ok(props)
        case Some(ref) =>
          match Fragment(ref)
          case None => Err(IndexError)
          case Some(f) => Ok(if OwnershipTest(f, className, obj.rdfType) then props + [obj] else props)
  }

  /** The search fails, always with IndexError, exactly when some definition has a `propertyOf`
      reference without `#`, whichever class is asked for. */
  lemma {:induction false} OwnedPropertiesFailIff(className: string, defines: seq<Entry>)
    ensures OwnedProperties(className, defines).Err? <==> exists e :: e in defines && BrokenReference(e)
    ensures OwnedProperties(className, defines).Err? ==> OwnedProperties(className, defines).error == IndexError
  {
    if |defines| > 0 {
      var init := defines[..|defines| - 1];
      var last := defines[|defines| - 1];
      OwnedPropertiesFailIff(className, init);
      assert defines == init + [last];
      if last.propertyOf.Some? {
        assert Fragment(last.propertyOf.value).None? <==> BrokenReference(last);
      }
      assert forall e :: e in defines <==> e in init || e == last;
    }
  }

  /** On success each owned property is kept as often as it occurs, and nothing else is kept. */
  lemma {:induction false} OwnedPropertiesCount(className: string, defines: seq<Entry>, e: Entry)
    requires OwnedProperties(className, defines).Ok?
    ensures multiset(OwnedProperties(className, defines).value)[e] == if Owns(className, e) then multiset(defines)[e] else 0
  {
    if |defines| > 0 {
      var init := defines[..|defines| - 1];
      OwnedPropertiesCount(className, init, e);
      assert defines == init + [defines[|defines| - 1]];
    }
  }

  /** On success a definition is returned exactly when the class owns it. */
  lemma {:induction false} OwnedPropertiesMembers(className: string, defines: seq<Entry>, e: Entry)
    requires OwnedProperties(className, defines).Ok?
    ensures e in OwnedProperties(className, defines).value <==> e in defines && Owns(className, e)
  {
    OwnedPropertiesCount(className, defines, e);
  }

  /** The owned properties keep their order: those of a concatenation are those of each part. */
  lemma {:induction false} OwnedPropertiesAppend(className: string, a: seq<Entry>, b: seq<Entry>)
    requires OwnedProperties(className, a).Ok? && OwnedProperties(className, b).Ok?
    ensures OwnedProperties(className, a + b)
      == Ok(OwnedProperties(className, a).value + OwnedProperties(className, b).value)
    decreases |b|
  {
    if |b| == 0 {
      assert a + b == a;
      assert OwnedProperties(className, a).value + [] == OwnedProperties(className, a).value;
    } else {
      var init, last := b[..|b| - 1], b[|b| - 1];
      OwnedPropertiesInitOk(className, b);
      OwnedPropertiesAppend(className, a, init);
      var x, y := OwnedProperties(className, a).value, OwnedProperties(className, init).value;
      assert (a + b)[..|a + b| - 1] == a + init;
      assert (a + b)[|a + b| - 1] == last;
      assert OwnedProperties(className, a + init) == Ok(x + y);
      if last.propertyOf.Some? {
        var f := Fragment(last.propertyOf.value);
        assert f.Some?;
        if OwnershipTest(f.value, className, last.rdfType) {
          assert OwnedProperties(className, b).value == y + [last];
          assert x + y + [last] == x + (y + [last]);
        }
      }
    }
  }

  /** A successful search over a non-empty list succeeded on all but its last element too. */
  lemma OwnedPropertiesInitOk(className: string, defines: seq<Entry>)
    requires |defines| > 0 && OwnedProperties(className, defines).Ok?
    ensures OwnedProperties(className, defines[..|defines| - 1]).Ok?
  {
  }

  /** `get_class_properties`: walks `defines`, appending the entries owned by `className`;
      an entry with a `propertyOf` id lacking `#` aborts the walk. */
  method GetClassProperties(className: string, vocab: Vocab) returns (r: Result<seq<Entry>, LookupError>)
    ensures r == OwnedProperties(className, vocab.defines)
  {
    var properties := [];
    var defines := vocab.defines;
    for i := 0 to |defines|
      invariant OwnedProperties(className, defines[..i]) == Ok(properties)
    {
      var obj := defines[i];
      assert defines[..i + 1][..i] == defines[..i];
      if obj.propertyOf.Some? {
        var propertyOf := Fragment(obj.propertyOf.value);
        if propertyOf.None? {
          OwnedPropertiesFailIff(className, defines);
          assert obj in defines && BrokenReference(obj);
          return Err(IndexError);
        }
        if OwnershipTest(propertyOf.value, className, obj.rdfType) {
          properties := properties + [obj];
        }
      }
    }
    assert defines[..|defines|] == defines;
    return Ok(properties);
  }

  // ---------------------------------------------------------------------------------------
  // create_hydra_properties

  /** `create_hydra_properties`: a required, readable, writable property with the entry's
      rdfsLabel, whose URI is the id of the class its `propertyOn` object names (looked up by
      fragment in `hydraClasses`) or, without such an object, the entry's own id. */
  function CreateHydraProperty(property: Entry, hydraClasses: map<string, HydraClass>): (r: Result<HydraClassProp, LookupError>)
    ensures r.Ok? ==> r.value.title == property.rdfsLabel && r.value.required && r.value.read && r.value.write
    ensures !property.propertyOn.Reference? ==> r.Ok? && r.value.prop == property.id
    ensures property.propertyOn.Reference? ==>
      var target := Fragment(property.propertyOn.refId);
      (target.None? ==> r == Err(IndexError)) &&
      (target.Some? && target.value !in hydraClasses ==> r == Err(KeyError(target.value))) &&
      (target.Some? && target.value in hydraClasses ==> r.Ok? && r.value.prop == hydraClasses[target.value].id)
  {
    match property.propertyOn
    case Reference(refId) =>
      (match Fragment(refId)
       case None => Err(IndexError)
       case Some(propertyOnClass) =>
         if propertyOnClass in hydraClasses then
           Ok(HydraClassProp(hydraClasses[propertyOnClass].id, property.rdfsLabel, true, true, true))
         else
           Err(KeyError(propertyOnClass)))
    case _ =>
      Ok(HydraClassProp(property.id, property.rdfsLabel, true, true, true))
  }

  /** A property whose `propertyOn` references `prefix#name` gets the id of the class built
      under `name`, not its own id; an unknown `name` is the KeyError. */
  lemma PropertyTargetsReferencedClass(property: Entry, hydraClasses: map<string, HydraClass>, prefix: string, name: string)
    requires Hash !in prefix && Hash !in name
    requires property.propertyOn == Reference(prefix + [Hash] + name)
    ensures name in hydraClasses ==>
      CreateHydraProperty(property, hydraClasses) == Ok(HydraClassProp(hydraClasses[name].id, property.rdfsLabel, true, true, true))
    ensures name !in hydraClasses ==> CreateHydraProperty(property, hydraClasses) == Err(KeyError(name))
  {
    FragmentOf(prefix, name, "");
  }

  /** The worked example: a property ranging over the class `Borrower`, built with id `B1`,
      resolves to `B1`. */
  lemma BorrowerPropertyResolves(property: Entry, borrower: HydraClass)
    requires property.propertyOn == Reference("vocab:NonPerformingLoan#Borrower")
    requires borrower.id == "B1"
    ensures CreateHydraProperty(property, map["Borrower" := borrower]).Ok?
    ensures CreateHydraProperty(property, map["Borrower" := borrower]).value.prop == "B1"
  {
    assert "vocab:NonPerformingLoan#Borrower" == "vocab:NonPerformingLoan" + [Hash] + "Borrower";
    PropertyTargetsReferencedClass(property, map["Borrower" := borrower], "vocab:NonPerformingLoan", "Borrower");
  }

  // ---------------------------------------------------------------------------------------
  // get_class_id

  /** The id of the first class titled `className`, or None when no title matches. */
  function ClassIdOf(className: string, hydraClasses: seq<HydraClass>): Option<string>
  {
    if |hydraClasses| == 0 then None
    else if hydraClasses[0].title == className then Some(hydraClasses[0].id)
    else ClassIdOf(className, hydraClasses[1..])
  }

  /** ClassIdOf is a first-match lookup: None exactly when no title matches, and otherwise the
      id of the earliest class with a matching title. */
  lemma {:induction false} ClassIdOfFirstMatch(className: string, hydraClasses: seq<HydraClass>)
    ensures ClassIdOf(className, hydraClasses).None? <==>
      forall i :: 0 <= i < |hydraClasses| ==> hydraClasses[i].title != className
    ensures forall i :: (0 <= i < |hydraClasses| && hydraClasses[i].title == className &&
      (forall j :: 0 <= j < i ==> hydraClasses[j].title != className)) ==>
        ClassIdOf(className, hydraClasses) == Some(hydraClasses[i].id)
  {
    if |hydraClasses| > 0 {
      var tail := hydraClasses[1..];
      ClassIdOfFirstMatch(className, tail);
      assert forall i :: 1 <= i < |hydraClasses| ==> hydraClasses[i] == tail[i - 1];
    }
  }

  /** `get_class_id`: a linear search that returns at the first matching title. */
  method GetClassId(className: string, hydraClasses: seq<HydraClass>) returns (classId: Option<string>)
    ensures classId == ClassIdOf(className, hydraClasses)
  {
    for i := 0 to |hydraClasses|
      invariant ClassIdOf(className, hydraClasses) == ClassIdOf(className, hydraClasses[i..])
    {
      assert hydraClasses[i..][1..] == hydraClasses[i + 1..];
      if hydraClasses[i].title == className {
        return Some(hydraClasses[i].id);
      }
    }
    return None;
  }

  // ---------------------------------------------------------------------------------------
  // add_operations_to_class

  /** The four verbs the synthesizer knows. */
  predicate IsVerb(verb: string) {
    verb == "GET" || verb == "PUT" || verb == "POST" || verb == "DELETE"
  }

  /** The per-verb status text that follows the class name: the canonical outcome of each verb. */
  function StatusSuffix(verb: string): string
    requires IsVerb(verb)
  {
    if verb == "GET" then " class returned."
    else if verb == "PUT" then " class Added."
    else if verb == "POST" then " class updated."
    else assert verb == "DELETE"; " class Deleted."
  }

  /** The headers an operation declares in its second header list: only POST has any. */
  function ReturnsHeaderFor(verb: string): seq<string>
  {
    if verb == "POST" then ["Content-Type", "Content-Length"] else []
  }

  /** The canned operation for one verb of the class `className` whose id is `classId`,
      or None for a verb the synthesizer skips. */
  function OperationFor(className: string, verb: string, classId: string): (r: Option<HydraClassOp>)
    ensures r.Some? <==> IsVerb(verb)
    ensures r.Some? ==>
      r.value.title == className + verb && r.value.httpMethod == verb &&
      r.value.expectsHeader == [] &&
      r.value.returnsHeader == ReturnsHeaderFor(verb) &&
      r.value.possibleStatus == [HydraStatus(200, className + StatusSuffix(verb))] &&
      r.value.expectsClass == (if verb == "PUT" || verb == "POST" then Some(classId) else None) &&
      r.value.returnsClass == (if verb == "GET" then Some(classId) else None)
  {
    if verb == "GET" then
      Some(HydraClassOp(className + verb, verb, None, Some(classId), [], [],
                        [HydraStatus(200, className + " class returned.")]))
    else if verb == "PUT" then
      Some(HydraClassOp(className + verb, verb, Some(classId), None, [], [],
                        [HydraStatus(200, className + " class Added.")]))
    else if verb == "POST" then
      Some(HydraClassOp(className + verb, verb, Some(classId), None, [], ["Content-Type", "Content-Length"],
                        [HydraStatus(200, className + " class updated.")]))
    else if verb == "DELETE" then
      Some(HydraClassOp(className + verb, verb, None, None, [], [],
                        [HydraStatus(200, className + " class Deleted.")]))
    else
      None
  }

  /** The requested verbs the synthesizer knows, in request order, repeats included. */
  function KnownVerbs(verbs: seq<string>): seq<string>
  {
    if |verbs| == 0 then []
    else
      var last := verbs[|verbs| - 1];
      KnownVerbs(verbs[..|verbs| - 1]) + (if IsVerb(last) then [last] else [])
  }

  /** Known verbs keep their request order: those of a concatenation are those of each part. */
  lemma {:induction false} KnownVerbsAppend(a: seq<string>, b: seq<string>)
    ensures KnownVerbs(a + b) == KnownVerbs(a) + KnownVerbs(b)
    decreases |b|
  {
    if |b| == 0 {
      assert a + b == a;
    } else {
      KnownVerbsAppend(a, b[..|b| - 1]);
      assert (a + b)[..|a + b| - 1] == a + b[..|b| - 1];
    }
  }

  /** Each known verb is kept as often as it is requested; unknown verbs are dropped. */
  lemma {:induction false} KnownVerbsCount(verbs: seq<string>, v: string)
    ensures multiset(KnownVerbs(verbs))[v] == if IsVerb(v) then multiset(verbs)[v] else 0
  {
    if |verbs| > 0 {
      var init := verbs[..|verbs| - 1];
      KnownVerbsCount(init, v);
      assert verbs == init + [verbs[|verbs| - 1]];
    }
  }

  /** The operations synthesized for `verbs` on a class with id `classId`. */
  function Operations(className: string, verbs: seq<string>, classId: string): seq<HydraClassOp>
  {
    if |verbs| == 0 then []
    else
      var prev := Operations(className, verbs[..|verbs| - 1], classId);
      match OperationFor(className, verbs[|verbs| - 1], classId)
      case None => prev
      case Some(op) => prev + [op]
  }

  /** One operation per known verb, in request order: the k-th operation is the canned one for
      the k-th known verb. */
  lemma {:induction false} OperationsFollowVerbs(className: string, verbs: seq<string>, classId: string)
    ensures |Operations(className, verbs, classId)| == |KnownVerbs(verbs)|
    ensures forall k :: 0 <= k < |KnownVerbs(verbs)| ==>
      OperationFor(className, KnownVerbs(verbs)[k], classId) == Some(Operations(className, verbs, classId)[k])
  {
    if |verbs| > 0 {
      OperationsFollowVerbs(className, verbs[..|verbs| - 1], classId);
    }
  }

  /** Only POST declares headers, exactly `Content-Type` and `Content-Length`, and every
      operation has the single status 200 with its verb's text after the class name. */
  lemma {:induction false} OperationsShape(className: string, verbs: seq<string>, classId: string)
    ensures forall op :: op in Operations(className, verbs, classId) ==>
      IsVerb(op.httpMethod) &&
      op.expectsHeader == [] &&
      op.returnsHeader == ReturnsHeaderFor(op.httpMethod) &&
      op.possibleStatus == [HydraStatus(200, className + StatusSuffix(op.httpMethod))]
  {
    OperationsFollowVerbs(className, verbs, classId);
    var ops := Operations(className, verbs, classId);
    forall op | op in ops
      ensures IsVerb(op.httpMethod) && op.expectsHeader == []
      ensures op.returnsHeader == ReturnsHeaderFor(op.httpMethod)
      ensures op.possibleStatus == [HydraStatus(200, className + StatusSuffix(op.httpMethod))]
    {
      var k :| 0 <= k < |ops| && ops[k] == op;
      assert OperationFor(className, KnownVerbs(verbs)[k], classId) == Some(op);
    }
  }

  /** The four canned records of the class `Loan`. */
  lemma LoanOperationRecords(classId: string)
    ensures OperationFor("Loan", "GET", classId)
      == Some(HydraClassOp("LoanGET", "GET", None, Some(classId), [], [], [HydraStatus(200, "Loan class returned.")]))
    ensures OperationFor("Loan", "PUT", classId)
      == Some(HydraClassOp("LoanPUT", "PUT", Some(classId), None, [], [], [HydraStatus(200, "Loan class Added.")]))
    ensures OperationFor("Loan", "POST", classId)
      == Some(HydraClassOp("LoanPOST", "POST", Some(classId), None, [], ["Content-Type", "Content-Length"],
                           [HydraStatus(200, "Loan class updated.")]))
    ensures OperationFor("Loan", "DELETE", classId)
      == Some(HydraClassOp("LoanDELETE", "DELETE", None, None, [], [], [HydraStatus(200, "Loan class Deleted.")]))
  {
    assert "Loan" + "GET" == "LoanGET" && "Loan" + " class returned." == "Loan class returned.";
    assert "Loan" + "PUT" == "LoanPUT" && "Loan" + " class Added." == "Loan class Added.";
    assert "Loan" + "POST" == "LoanPOST" && "Loan" + " class updated." == "Loan class updated.";
    assert "Loan" + "DELETE" == "LoanDELETE" && "Loan" + " class Deleted." == "Loan class Deleted.";
  }

  /** The worked example: the class `Loan` with all four verbs. */
  lemma LoanOperations(classId: string)
    ensures Operations("Loan", ["GET", "PUT", "POST", "DELETE"], classId) == [
      HydraClassOp("LoanGET", "GET", None, Some(classId), [], [], [HydraStatus(200, "Loan class returned.")]),
      HydraClassOp("LoanPUT", "PUT", Some(classId), None, [], [], [HydraStatus(200, "Loan class Added.")]),
      HydraClassOp("LoanPOST", "POST", Some(classId), None, [], ["Content-Type", "Content-Length"],
                   [HydraStatus(200, "Loan class updated.")]),
      HydraClassOp("LoanDELETE", "DELETE", None, None, [], [], [HydraStatus(200, "Loan class Deleted.")])]
  {
    var verbs := ["GET", "PUT", "POST", "DELETE"];
    assert verbs[..3][..2] == verbs[..2];
    assert verbs[..2][..1] == verbs[..1];
    assert verbs[..1][..0] == [];
    LoanOperationRecords(classId);
    var get := OperationFor("Loan", "GET", classId).value;
    var put := OperationFor("Loan", "PUT", classId).value;
    var post := OperationFor("Loan", "POST", classId).value;
    assert Operations("Loan", verbs[..1], classId) == [get];
    assert Operations("Loan", verbs[..2], classId) == [get, put];
    assert Operations("Loan", verbs[..3], classId) == [get, put, post];
  }

  /** Python's truthiness of the looked-up class id: None and the empty string are falsy. */
  predicate IsTruthy(classId: Option<string>) {
    classId.Some? && classId.value != ""
  }

  /** What `add_operations_to_class` returns. */
  function ClassOperations(hydraClasses: seq<HydraClass>, className: string, verbs: seq<string>): seq<HydraClassOp>
  {
    var classId := ClassIdOf(className, hydraClasses);
    if IsTruthy(classId) then Operations(className, verbs, classId.value) else []
  }

  /** Asking for a class no built class is titled with yields no operations, whatever the verbs. */
  lemma UnknownClassHasNoOperations(hydraClasses: seq<HydraClass>, className: string, verbs: seq<string>)
    requires forall i :: 0 <= i < |hydraClasses| ==> hydraClasses[i].title != className
    ensures ClassOperations(hydraClasses, className, verbs) == []
  {
    ClassIdOfFirstMatch(className, hydraClasses);
  }

  /** For a known class whose id is truthy, there is one operation per known verb. */
  lemma {:induction false} KnownClassOperationCount(hydraClasses: seq<HydraClass>, className: string, verbs: seq<string>)
    requires IsTruthy(ClassIdOf(className, hydraClasses))
    ensures |ClassOperations(hydraClasses, className, verbs)| == |KnownVerbs(verbs)|
  {
    OperationsFollowVerbs(className, verbs, ClassIdOf(className, hydraClasses).value);
  }

  /** `add_operations_to_class`: looks up the class id and, when it is truthy, appends the
      canned operation for each requested verb it knows. */
  method AddOperationsToClass(hydraClasses: seq<HydraClass>, className: string, operations: seq<string>)
    returns (hydraOperations: seq<HydraClassOp>)
    ensures hydraOperations == ClassOperations(hydraClasses, className, operations)
  {
    hydraOperations := [];
    var classId := GetClassId(className, hydraClasses);
    if classId.Some? && classId.value != "" {
      var id := classId.value;
      for i := 0 to |operations|
        invariant hydraOperations == Operations(className, operations[..i], id)
      {
        var operation := operations[i];
        assert operations[..i + 1][..i] == operations[..i];
        if operation == "GET" {
          var getOperationStatus := [HydraStatus(200, className + " class returned.")];
          var op := HydraClassOp(className + operation, operation, None, Some(id), [], [], getOperationStatus);
          hydraOperations := hydraOperations + [op];
        }
        if operation == "PUT" {
          var putOperationStatus := [HydraStatus(200, className + " class Added.")];
          var op := HydraClassOp(className + operation, operation, Some(id), None, [], [], putOperationStatus);
          hydraOperations := hydraOperations + [op];
        }
        if operation == "POST" {
          var postOperationStatus := [HydraStatus(200, className + " class updated.")];
          var op := HydraClassOp(className + operation, operation, Some(id), None, [],
                                 ["Content-Type", "Content-Length"], postOperationStatus);
          hydraOperations := hydraOperations + [op];
        }
        if operation == "DELETE" {
          var deleteOperationStatus := [HydraStatus(200, className + " class Deleted.")];
          var op := HydraClassOp(className + operation, operation, None, None, [], [], deleteOperationStatus);
          hydraOperations := hydraOperations + [op];
        }
      }
      assert operations[..|operations|] == operations;
    }
  }
}
