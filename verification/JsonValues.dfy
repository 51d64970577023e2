/** JSON values as the database columns hold them, and instants and dates as text. */
module JsonValues {
  import opened Wrappers

  datatype Json =
    | Null
    | Flag(flag: bool)
    | Whole(whole: int)
    | Decimal(decimal: real)
    | Text(text: string)
    | List(items: seq<Json>)
    | Object(fields: map<string, Json>)

  datatype JsonError = MissingKey(key: string) | Malformed | UnknownName | Unreadable

  // isoformat and fromisoformat of some kind of moment.
  datatype Calendar<!T> = Calendar(iso: T -> string, parse: string -> Option<T>)

  // What is relied on: reading undoes writing.
  ghost predicate Faithful<T(!new)>(c: Calendar<T>) {
    forall t: T :: c.parse(c.iso(t)) == Some(t)
  }

  // There is one for every kind of moment that is counted: the count is written with as many marks as tell it.
  lemma FaithfulCalendarExists<T(!new)>(count: T -> int, moment: int -> T)
    requires forall t: T :: moment(count(t)) == t
    ensures exists c: Calendar<T> :: Faithful(c)
  {
    var c := Calendar(
      (t: T) => if count(t) >= 0 then seq(2 * count(t), _ => '|') else seq(-2 * count(t) - 1, _ => '|'),
      (s: string) => Some(moment(if |s| % 2 == 0 then |s| / 2 else -(|s| + 1) / 2)));
    forall t: T ensures c.parse(c.iso(t)) == Some(t) {
      assert |c.iso(t)| == if count(t) >= 0 then 2 * count(t) else -2 * count(t) - 1;
    }
    assert Faithful(c);
  }

  function Get(fields: map<string, Json>, key: string): Json {
    if key in fields then fields[key] else Null
  }
}
