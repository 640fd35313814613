/** Vocabulary shared by every model and controller: document ids, optional
    request fields with JavaScript truthiness, HTTP replies, and the
    `findOne` lookup over an id-keyed collection. */
module Base {

  /** A document id (a MongoDB ObjectId). Ids are compared for equality and,
      because ObjectIds grow with creation time, ordered by insertion. */
  type Id = nat

  datatype Option<T> = None | Some(value: T)

  /** The JSON envelope a handler answers with: a status code and either the
      payload (`success: true`) or the error message (`success: false`). */
  datatype Reply<T> = Ok(code: int, value: T) | Fail(code: int, message: string)

  /** A request-body string field is truthy when it is present and non-empty. */
  predicate TruthyText(s: Option<string>) {
    s.Some? && s.value != ""
  }

  /** A request-body number field is truthy when it is present and not zero. */
  predicate TruthyNum(n: Option<int>) {
    n.Some? && n.value != 0
  }

  /** The least element of a non-empty set of ids exists. */
  lemma LeastExists(s: set<Id>)
    requires s != {}
    ensures exists k :: k in s && IsLeast(s, k)
  {
    var x :| x in s;
    LeastAtMost(s, x);
  }

  /** Descending from any member of `s` reaches its least element. */
  lemma {:induction false} LeastAtMost(s: set<Id>, b: Id)
    requires b in s
    ensures exists k :: k in s && IsLeast(s, k)
    decreases b
  {
    if IsLeast(s, b) {
    } else {
      var j :| j in s && j < b;
      LeastAtMost(s, j);
    }
  }

  /** `k` is no greater than any id of `s`. */
  predicate IsLeast(s: set<Id>, k: Id) {
    forall j :: j in s ==> k <= j
  }

  /** `Collection.findOne(filter)`: the id of a document satisfying `p`, or
      None when no document does. Several matches yield the oldest, that is
      the least id. */
  function FindKey<V>(m: map<Id, V>, p: V -> bool): (r: Option<Id>)
    ensures r.Some? ==> r.value in m && p(m[r.value])
    ensures r.Some? ==> forall k :: k in m && p(m[k]) ==> r.value <= k
    ensures r.None? <==> forall k :: k in m ==> !p(m[k])
  {
    var hits := set k | k in m && p(m[k]);
    assert forall k :: k in m && p(m[k]) ==> k in hits;
    if hits == {} then None
    else
      LeastExists(hits);
      var k :| k in hits && IsLeast(hits, k);
      Some(k)
  }
}
