/** The specification tree: current requirement documents, and active and archived changes. */
module Specifications {
  import opened Prelude

  /** A requirement document: the identifier its heading declares, if it is readable, and its text. */
  datatype Document = Document(requirement: Option<string>, text: string)

  datatype Operation = Add | Modify | Remove

  datatype Delta = Delta(operation: Operation, requirement: string, destination: string, source: Option<string>)

  datatype Stage = Draft | Proposed | Accepted | Implementing | Verifying | Archived | Rejected | Superseded
  {
    predicate Terminal() { Archived? || Rejected? || Superseded? }
  }

  datatype Metadata = Metadata(schema: string, id: string, title: string, stage: Stage, issue: nat,
                               created: string, updated: string, designRequired: bool, deltas: seq<Delta>)

  /** A change directory; `complete` and `total` count the tasks of tasks.md. */
  datatype Change = Change(meta: Metadata, files: map<string, Document>, complete: nat, total: nat)

  datatype Tree = Tree(current: map<string, Document>, changes: map<string, Change>, archive: map<string, Change>)
}
