# NPL vocabulary to Hydra API description

This project models, in Dafny, the vocabulary parser of the credit-risk proof of concept
(`creditrisk_poc/api_doc/NPLVocab_parser.py`). The parser reads the flat `defines` list of the
non-performing-loan (NPL) JSON-LD vocabulary and derives the parts of a Hydra API
description from it:

- `get_all_classes` keeps the definitions typed `rdfs:Class`, in their original order.
- `create_hydra_classes` turns each class into a `HydraClass` endpoint. Its title is the
  `rdfs:label` and its description is the `rdfs:comment`.
- `get_class_properties` selects the definitions whose `propertyOf` reference has the class
  name as its `#` fragment.
- `create_hydra_properties` builds a `HydraClassProp`. Its URI is the id of the class named by
  `propertyOn` when that key holds a non-empty object, and the definition's own `@id`
  otherwise (an empty object `{}` is falsy).
- `get_class_id` finds the id of the first class with a given title.
- `add_operations_to_class` builds the canned GET/PUT/POST/DELETE operations of a class.

Files:

- `wrappers.dfy`: `Option` (Python's `None`) and `Result` (a raised exception as `Err`).
- `fragments.dfy`: Python's `str.split`, its inverse `Join`, and `Fragment`, which is
  `uri.split('#')[1]`.
- `hydra_doc.dfy`: the hydra_python_core records `HydraClass`, `HydraClassProp`,
  `HydraClassOp` and `HydraStatus`, as plain datatypes.
- `npl_vocab_parser.dfy`: the six operations and the properties proved about them.

Each Python loop is a `method` with a loop. `GetAllClasses`, `GetClassProperties`, `GetClassId`
and `AddOperationsToClass` are proved equal to the recursive specification functions
`ClassEntries`, `OwnedProperties`, `ClassIdOf` and `ClassOperations`. `CreateHydraClasses`
states its result index by index. Lemmas then state what each function means: filtering with order and
multiplicity kept, the exact error condition, first-match lookup, and one operation per known
verb. `create_hydra_properties` has no loop, so it is a function. Every function is
deterministic, so running the operation synthesizer twice on the same input gives the same
operations.

In four places the intended behaviour differs from the code. The model follows the code each time:

- The intended behaviour is to catch an unknown `propertyOn` class and drop that property.
  The code does not catch it: `hydra_classes[...]` raises `KeyError`. So `CreateHydraProperty`
  returns `Err(KeyError(name))`.
- The intended behaviour is to drop a property whose `propertyOf` reference matches no class.
  But a `propertyOf` id without `#` makes `split('#')[1]` raise `IndexError`, and the whole
  call fails. `OwnedProperties` returns `Err(IndexError)`, and `OwnedPropertiesFailIff` states
  exactly when this happens.
- The ownership test's second disjunct,
  `@type == 'owl:DataProperty' and @type == 'owl:ObjectProperty'`, is kept as written.
  `OwnershipTest` proves that it never holds. An `or` was probably intended. The model does
  not change it, because the intended condition cannot be known.
- Only unknown classes are meant to get no operations. But an empty-string class id is falsy
  in Python, so `add_operations_to_class` also produces nothing for such a class (`IsTruthy`).

## Model

| member | source | states |
|---|---|---|
| NplVocabParser.GetAllClasses | creditrisk_poc/api_doc/NPLVocab_parser.py:13-22 | the loop returns exactly `ClassEntries(defines)`, the class-typed definitions |
| NplVocabParser.ClassEntriesAppend | creditrisk_poc/api_doc/NPLVocab_parser.py:19-21 | class filtering keeps the original relative order: it distributes over concatenation |
| NplVocabParser.ClassEntriesCount | creditrisk_poc/api_doc/NPLVocab_parser.py:19-21 | every class definition occurs in the result as often as in `defines`; nothing else occurs |
| NplVocabParser.ClassEntriesMembers | creditrisk_poc/api_doc/NPLVocab_parser.py:20-21 | an entry is returned if and only if it is in `defines` and typed `rdfs:Class` |
| NplVocabParser.CreateHydraClasses | creditrisk_poc/api_doc/NPLVocab_parser.py:25-33 | one descriptor per input class, in order; title = label and description = comment verbatim, endpoint = true, id minted from the title |
| Fragments.Split | creditrisk_poc/api_doc/NPLVocab_parser.py:44 | `str.split` gives at least one piece and no piece contains the separator |
| Fragments.JoinSplit | creditrisk_poc/api_doc/NPLVocab_parser.py:44 | splitting loses nothing: joining the pieces with the separator gives back the string |
| Fragments.SplitHasSecondPiece | creditrisk_poc/api_doc/NPLVocab_parser.py:44 | `split('#')[1]` exists if and only if the string contains `#` |
| Fragments.SplitAtFirstSeparator | creditrisk_poc/api_doc/NPLVocab_parser.py:44 | the first piece is the text before the first separator; the rest is split independently |
| Fragments.Fragment | creditrisk_poc/api_doc/NPLVocab_parser.py:44 | a fragment exists if and only if the URI has a `#`, and it contains no `#` |
| Fragments.FragmentOf | creditrisk_poc/api_doc/NPLVocab_parser.py:52 | for `prefix#frag` and `prefix#frag#rest` (no `#` in prefix or frag) the fragment is exactly `frag` |
| NplVocabParser.OwnershipTest | creditrisk_poc/api_doc/NPLVocab_parser.py:45 | the ownership condition holds if and only if the fragment equals the class name; the type conjunction is dead code |
| NplVocabParser.OwnedPropertiesFailIff | creditrisk_poc/api_doc/NPLVocab_parser.py:42-44 | the search raises, always `IndexError`, if and only if some definition has a `propertyOf` id without `#` |
| NplVocabParser.OwnedPropertiesCount | creditrisk_poc/api_doc/NPLVocab_parser.py:42-46 | on success every definition whose `propertyOf` fragment is the class occurs as often as in `defines`; nothing else occurs |
| NplVocabParser.OwnedPropertiesMembers | creditrisk_poc/api_doc/NPLVocab_parser.py:42-46 | on success an entry is returned if and only if it is a definition with a truthy `propertyOf` whose fragment is the class |
| NplVocabParser.OwnedPropertiesAppend | creditrisk_poc/api_doc/NPLVocab_parser.py:40-47 | the owned properties keep their original relative order: the search distributes over concatenation |
| NplVocabParser.GetClassProperties | creditrisk_poc/api_doc/NPLVocab_parser.py:36-47 | the loop, with its abort on a bad id, returns exactly `OwnedProperties(class, defines)` |
| NplVocabParser.CreateHydraProperty | creditrisk_poc/api_doc/NPLVocab_parser.py:50-58 | label copied, all three flags true. URI = id of the class named by a `propertyOn` object, else the property's own id. `IndexError` / `KeyError` for a reference without `#` / an unknown class |
| NplVocabParser.PropertyTargetsReferencedClass | creditrisk_poc/api_doc/NPLVocab_parser.py:51-53 | a property whose `propertyOn` is `prefix#name` gets exactly the id of the class built under `name`, or `KeyError(name)` when there is none |
| NplVocabParser.BorrowerPropertyResolves | creditrisk_poc/api_doc/NPLVocab_parser.py:51-57 | a property ranging over `Borrower`, built with id `B1`, resolves to `B1` |
| NplVocabParser.ClassIdOfFirstMatch | creditrisk_poc/api_doc/NPLVocab_parser.py:61-67 | the lookup gives None if and only if no title matches; otherwise it gives the id of the earliest matching class |
| NplVocabParser.GetClassId | creditrisk_poc/api_doc/NPLVocab_parser.py:61-67 | the early-return search returns exactly `ClassIdOf(name, classes)` |
| NplVocabParser.OperationFor | creditrisk_poc/api_doc/NPLVocab_parser.py:78-95 | an operation exists if and only if the verb is GET, PUT, POST or DELETE. Name = class + verb, method = verb. The first header list is empty. The second is exactly `["Content-Type", "Content-Length"]` for POST and empty otherwise, so only POST declares headers. There is one status: code 200, text = class name + " class returned." / " class Added." / " class updated." / " class Deleted." for GET / PUT / POST / DELETE. Expects/returns hold the class id as each verb requires |
| NplVocabParser.KnownVerbsAppend | creditrisk_poc/api_doc/NPLVocab_parser.py:77-95 | the known verbs keep request order: the filter distributes over concatenation |
| NplVocabParser.KnownVerbsCount | creditrisk_poc/api_doc/NPLVocab_parser.py:77-95 | each known verb is kept as often as it is requested (repeats repeat); unknown verbs are dropped |
| NplVocabParser.OperationsFollowVerbs | creditrisk_poc/api_doc/NPLVocab_parser.py:77-95 | the number of operations equals the number of known verbs, and the k-th operation is the canned one for the k-th known verb |
| NplVocabParser.OperationsShape | creditrisk_poc/api_doc/NPLVocab_parser.py:78-95 | every synthesized operation's method is GET, PUT, POST or DELETE, and its first header list is empty. Its only status is code 200 with its verb's text after the class name. Only POST has a non-empty second header list, and that list is exactly `Content-Type`, `Content-Length` |
| NplVocabParser.LoanOperationRecords | creditrisk_poc/api_doc/NPLVocab_parser.py:78-95 | the canned record of each verb for the class `Loan`: names `LoanGET`/`LoanPUT`/`LoanPOST`/`LoanDELETE`, the exact status texts, and the two headers for POST only |
| NplVocabParser.LoanOperations | creditrisk_poc/api_doc/NPLVocab_parser.py:78-95 | for `Loan` with all four verbs: exactly LoanGET, LoanPUT, LoanPOST, LoanDELETE with the four exact status texts and POST's two headers |
| NplVocabParser.UnknownClassHasNoOperations | creditrisk_poc/api_doc/NPLVocab_parser.py:74-76 | when no class has the title, the result is empty whatever verbs are requested |
| NplVocabParser.KnownClassOperationCount | creditrisk_poc/api_doc/NPLVocab_parser.py:75-77 | for a class with a truthy id, the result has one operation per known requested verb |
| NplVocabParser.AddOperationsToClass | creditrisk_poc/api_doc/NPLVocab_parser.py:70-96 | the lookup and the loop with four verb tests return exactly `ClassOperations`: empty when the id is None or empty, else `Operations` over the verbs |

## Left out

- `get_npl_vocab` (lines 6-10) reads and JSON-decodes a file at a path that depends on the working directory. The model starts from the decoded vocabulary, a `Vocab` value.
- `Index.py` is server start-up, database engine and session wiring, and the hydrus app context. None of it is modelled.
- The id minting inside hydra_python_core's `HydraClass` is not visible. `CreateHydraClasses` takes it as a function parameter `mint` applied to the title. How the descriptors serialise into an API document is not modelled.
- The label-to-class mapping passed to `create_hydra_properties` is built elsewhere. It is a `map<string, HydraClass>` parameter.
- Malformed JSON shapes are not modelled. A missing `defines`, `@type`, `rdfs:label`, `rdfs:comment` or `@id` key, a truthy `propertyOf` that is not an object, or a non-empty `propertyOn` object without `@id` raise in Python where the code reads them (a property's `rdfs:comment`, say, is never read). Every `Entry` has all its keys, `propertyOf` is either absent or an id, and `propertyOn` is absent, not an object, or an object with an id.
- The library records keep only the fields the parser sets. Class ids are strings, so `None` and `""` are the only falsy class ids.
- No count of silently omitted properties or operations is reported, because the code does not report one either.
