/** The API objects and the identifiers the library derives from them. */
module Api {
  datatype GroupKind = GK(group: string, kind: string) {
    predicate Empty() {
      group == "" && kind == ""
    }
  }

  datatype GroupVersionKind = GVK(group: string, version: string, kind: string) {
    function GroupKind(): GroupKind {
      GK(group, kind)
    }
  }

  datatype DuckSpec = DuckSpec(group: string, version: string, kind: string) {
    function GroupVersionKind(): GroupVersionKind {
      GVK(group, version, kind)
    }

    /** What a duck's objects are listed as. */
    function ListKind(): GroupVersionKind {
      GVK(group, version, kind + "List")
    }
  }

  /** The kind a list kind is read as: a trailing `List` is dropped. */
  function ItemKind(kind: string): (item: string)
    ensures item == kind || item + "List" == kind
  {
    if |kind| >= 4 && kind[|kind| - 4..] == "List" then kind[..|kind| - 4] else kind
  }

  lemma ItemKindOfList(kind: string)
    ensures ItemKind(kind + "List") == kind
  {
  }

  lemma ListKindDeterminesKind(x: string, y: string)
    ensures x + "List" == y + "List" <==> x == y
  {
    ItemKindOfList(x);
    ItemKindOfList(y);
  }

  datatype ConditionStatus = True | False | Unknown

  /** Ready is True exactly when every dependent condition is. */
  datatype Duck = Duck(name: string, spec: DuckSpec, rbac: ConditionStatus, available: ConditionStatus) {
    predicate Ready() {
      rbac == True && available == True
    }
  }
}
