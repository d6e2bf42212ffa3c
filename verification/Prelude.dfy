/** Small datatypes and text helpers shared by the models. */
module Prelude {

  datatype Option<+T> = None | Some(value: T)

  datatype Result<+T, +E> = Ok(value: T) | Err(error: E)

  /** A JSON value; `json.loads(json.dumps(v))` is `v`, so stored text is modelled by its value. */
  datatype Json = Null | Bool(b: bool) | Number(n: int) | Text(text: string) | List(items: seq<Json>) | Object(fields: map<string, Json>)

  /** The characters `str.strip` and `str.isspace` treat as white space. */
  predicate IsSpace(c: char) {
    || '\U{09}' <= c <= '\U{0d}' || '\U{1c}' <= c <= '\U{20}' || c == '\U{85}' || c == '\U{a0}'
    || c == '\U{1680}' || '\U{2000}' <= c <= '\U{200a}' || c == '\U{2028}' || c == '\U{2029}'
    || c == '\U{202f}' || c == '\U{205f}' || c == '\U{3000}'
  }

  /** `not text.strip()`. */
  predicate Blank(text: string) {
    forall i :: 0 <= i < |text| ==> IsSpace(text[i])
  }

  predicate OccursAt(text: string, part: string, i: nat) {
    i + |part| <= |text| && text[i..i + |part|] == part
  }

  /** `part in text`. */
  predicate Occurs(text: string, part: string) {
    exists i: nat | 0 <= i <= |text| :: OccursAt(text, part, i)
  }

  lemma {:induction false} SubsetSize<T>(a: set<T>, b: set<T>)
    requires a <= b
    ensures |a| <= |b|
  {
    if a != {} {
      var x :| x in a;
      SubsetSize(a - {x}, b - {x});
    }
  }
}
