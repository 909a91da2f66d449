/**
 * The JSON values the API handlers receive from `JSON.parse` and send
 * back in responses, with the two pieces of JavaScript object semantics
 * the handlers rely on: truthiness and object spread (`{...v}`).
 *
 * Numbers are integers here; the handlers never compute with them.
 */
module Json {
  import opened Text

  datatype JValue =
    | JNull
    | JBool(b: bool)
    | JNum(n: int)
    | JStr(s: string)
    | JArr(items: seq<JValue>)
    | JObj(fields: map<string, JValue>)

  /** JavaScript truthiness: `null`, `false`, `0` and `""` are falsy; arrays and objects never are. */
  predicate IsTruthy(v: JValue) {
    match v
    case JNull => false
    case JBool(b) => b
    case JNum(n) => n != 0
    case JStr(s) => s != ""
    case JArr(_) => true
    case JObj(_) => true
  }

  /** The property `key` of an object, if it is an object that has it. */
  function Get(v: JValue, key: string): Option<JValue> {
    if v.JObj? && key in v.fields then Some(v.fields[key]) else None
  }

  /** An object with one property per element, keyed by the element's index in decimal. */
  function IndexKeyed(items: seq<JValue>): (r: map<string, JValue>)
    ensures forall i :: 0 <= i < |items| ==> NatToString(i) in r && r[NatToString(i)] == items[i]
    ensures forall k :: k in r ==> exists i :: 0 <= i < |items| && k == NatToString(i)
  {
    NatToStringInjectiveAll();
    map i | 0 <= i < |items| :: NatToString(i) := items[i]
  }

  /** The own enumerable properties `{...v}` copies out of `v`. */
  function Spread(v: JValue): (r: map<string, JValue>)
    ensures v.JObj? ==> r == v.fields
    ensures v.JNull? || v.JBool? || v.JNum? ==> r == map[]
    ensures v.JArr? ==> forall i :: 0 <= i < |v.items| ==> NatToString(i) in r && r[NatToString(i)] == v.items[i]
    ensures v.JStr? ==> forall i :: 0 <= i < |v.s| ==> NatToString(i) in r && r[NatToString(i)] == JStr([v.s[i]])
    ensures v.JArr? ==> forall k :: k in r ==> exists i :: 0 <= i < |v.items| && k == NatToString(i)
    ensures v.JStr? ==> forall k :: k in r ==> exists i :: 0 <= i < |v.s| && k == NatToString(i)
  {
    match v
    case JObj(f) => f
    case JArr(items) => IndexKeyed(items)
    case JStr(s) => IndexKeyed(seq(|s|, i requires 0 <= i < |s| => JStr([s[i]])))
    case _ => map[]
  }

  /** A chat-completion message `{ role, content }`. */
  function Message(role: string, content: string): JValue {
    JObj(map["role" := JStr(role), "content" := JStr(content)])
  }

  /** Two messages from the same role are equal exactly when their contents are. */
  lemma MessageInjective(role: string, c1: string, c2: string)
    ensures Message(role, c1) == Message(role, c2) <==> c1 == c2
  {
    if Message(role, c1) == Message(role, c2) {
      assert Message(role, c1).fields["content"] == JStr(c1);
    }
  }

  /** An error response body `{ error }`. */
  function ErrorBody(error: string): JValue {
    JObj(map["error" := JStr(error)])
  }
}
