/** Parsed JSON documents and the required-field check shared by the idea and assessment validators. */
module Documents {
  import opened Seqs

  /** A parsed JSON value (numbers restricted to integers). */
  datatype Json =
    | Null
    | Bool(b: bool)
    | Number(n: int)
    | Str(s: string)
    | Array(elems: seq<Json>)
    | Object(fields: map<string, Json>)

  /** A parsed JSON object: what `json.load` returns for an assessment file. */
  type Document = map<string, Json>

  /** `[field for field in required if field not in present]`: the required names that are
      absent, in the order of the required list. */
  function MissingFields(required: seq<string>, present: set<string>): (r: seq<string>)
    ensures forall i :: 0 <= i < |r| ==> r[i] in required && r[i] !in present
    ensures forall f :: f in required && f !in present ==> f in r
    ensures IsSubseq(r, required)
    ensures r == [] <==> forall f :: f in required ==> f in present
  {
    Filter(f => f !in present, required)
  }
}
