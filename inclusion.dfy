/**
 * Inclusion lists (deny, allow, internal allow, override internal). Each is a set of keys
 * queried for membership; the names are the FNames of the owning type and of the member.
 */
module Inclusion {

  datatype InclusionList = InclusionList(
    classes: set<string>,
    structs: set<string>,
    functions: set<(string, string)>,
    properties: set<(string, string)>,
    functionCategories: set<(string, string)>)

  const Empty := InclusionList({}, {}, {}, {}, {})

  function AddClass(l: InclusionList, className: string): InclusionList {
    l.(classes := l.classes + {className})
  }

  function AddStruct(l: InclusionList, structName: string): InclusionList {
    l.(structs := l.structs + {structName})
  }

  function AddFunction(l: InclusionList, owner: string, functionName: string): InclusionList {
    l.(functions := l.functions + {(owner, functionName)})
  }

  function AddFunctionCategory(l: InclusionList, owner: string, category: string): InclusionList {
    l.(functionCategories := l.functionCategories + {(owner, category)})
  }

  predicate HasClass(l: InclusionList, className: string) {
    className in l.classes
  }

  predicate HasStruct(l: InclusionList, structName: string) {
    structName in l.structs
  }

  /** The function is listed by name under its owner. */
  predicate ListsFunction(l: InclusionList, owner: string, functionName: string) {
    (owner, functionName) in l.functions
  }

  /** The category is listed under the owner. */
  predicate ListsCategory(l: InclusionList, owner: string, category: string) {
    (owner, category) in l.functionCategories
  }

  /** HasFunction: the function is listed by name, or its category is listed, under its owner. */
  predicate HasFunction(l: InclusionList, owner: string, functionName: string, category: string) {
    ListsFunction(l, owner, functionName) || ListsCategory(l, owner, category)
  }

  predicate HasProperty(l: InclusionList, owner: string, propertyName: string) {
    (owner, propertyName) in l.properties
  }
}
