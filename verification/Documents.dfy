// scripts/check-allocation-account-identity.py: the documents that the account check sends, and what it takes for the
// same object.
module Documents {
  import opened Wrappers

  // A JSON document.
  datatype Doc =
    | Null
    | Flag(flag: bool)
    | Whole(whole: int)
    | Part(part: real)
    | Text(text: string)
    | List(items: seq<Doc>)
    | Dict(entries: map<string, Doc>)

  const METADATA := "metadata"
  const ANNOTATIONS := "annotations"
  const INTENT_ANNOTATION := "stego.test/create-intent"

  function Get(d: Doc, key: string): Doc {
    if d.Dict? && key in d.entries then d.entries[key] else Null
  }

  // The document has all that was asked for: of a dictionary what it asks for, of a list everything, in order.
  predicate Contains(actual: Doc, expected: Doc)
    decreases expected
  {
    match expected
    case Dict(entries) => actual.Dict? && forall key | key in entries :: Contains(Get(actual, key), entries[key])
    case List(items) =>
      actual.List? && |actual.items| == |items| && forall i | 0 <= i < |items| :: Contains(actual.items[i], items[i])
    case Null => actual == expected
    case Flag(_) => actual == expected
    case Whole(_) => actual == expected
    case Part(_) => actual == expected
    case Text(_) => actual == expected
  }

  // The mark of a create, among the annotations.
  function MarkOf(d: Doc): Option<string> {
    var mark := Get(Get(Get(d, METADATA), ANNOTATIONS), INTENT_ANNOTATION);
    if mark.Text? then Some(mark.text) else None
  }

  // The document has metadata, with a dictionary of annotations or none.
  predicate Markable(d: Doc) {
    && Get(d, METADATA).Dict?
    && (ANNOTATIONS in Get(d, METADATA).entries ==> Get(d, METADATA).entries[ANNOTATIONS].Dict?)
  }

  function WithMark(d: Doc, mark: string): Doc
    requires Markable(d)
  {
    var metadata := Get(d, METADATA);
    var annotations := if ANNOTATIONS in metadata.entries then metadata.entries[ANNOTATIONS].entries else map[];
    Dict(d.entries[METADATA := Dict(metadata.entries[ANNOTATIONS := Dict(annotations[INTENT_ANNOTATION := Text(mark)])])])
  }

  lemma {:induction false} MarkedHasItsMark(d: Doc, mark: string)
    requires Markable(d)
    ensures MarkOf(WithMark(d, mark)) == Some(mark)
  {
    assert Get(WithMark(d, mark), METADATA).Dict?;
  }

  // What has all that a marked document asks for bears its mark.
  lemma {:induction false} ContainsTheMark(actual: Doc, expected: Doc)
    requires Contains(actual, expected) && MarkOf(expected).Some?
    ensures MarkOf(actual) == MarkOf(expected)
  {
    var metadata := Get(expected, METADATA);
    var annotations := Get(metadata, ANNOTATIONS);
    assert Contains(Get(actual, METADATA), metadata);
    assert Contains(Get(Get(actual, METADATA), ANNOTATIONS), annotations);
    assert Contains(Get(Get(Get(actual, METADATA), ANNOTATIONS), INTENT_ANNOTATION), Get(annotations, INTENT_ANNOTATION));
  }
}
