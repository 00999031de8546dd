/** Option and the one error the browser can raise. */
module Outcomes {

  datatype Option<T> = None | Some(value: T)

  /**
   * The outcome of an operation that PHP may abort: `Ok`, or the error that
   * ends it. That is the `TypeError` PHP raises when `null` reaches a
   * parameter declared `array`, or, from PHP 8 on, the `TypeError` of
   * `array_diff` given `false` and the `ValueError` of `scandir('')`.
   */
  datatype Result<T> = Ok(value: T) | TypeError
}

/**
 * The tree the browser works on. An entry is a file's attribute array; a
 * directory entry also holds the entries of its `contents`. A directory
 * whose `contents` was set to null by flattening is a `ClearedDir`.
 */
module Entries {

  /** An attribute value: PHP strings, the integers of `lstat`, `false` from `mime_content_type`. */
  datatype Value = Str(s: string) | Int(i: int) | Bool(b: bool)

  /** The set attributes of an entry; an attribute that is null is absent. */
  type Attrs = map<string, Value>

  datatype Entry =
    | Leaf(attrs: Attrs)
    | Dir(attrs: Attrs, contents: seq<Entry>)
    | ClearedDir(attrs: Attrs)

  /** The attribute `k` is set, to `v`. */
  predicate Has(a: Attrs, k: string, v: Value)
  {
    k in a && a[k] == v
  }

  /** `$entry['type'] === 'directory'`. */
  predicate IsDirectory(e: Entry)
  {
    !e.Leaf?
  }

  /**
   * Every directory reachable from `es` still holds an array in `contents`:
   * the condition under which recursing into directories never hands `null`
   * to an `array` parameter.
   */
  predicate Nested(es: seq<Entry>)
  {
    forall i | 0 <= i < |es| :: !es[i].ClearedDir? && (es[i].Dir? ==> Nested(es[i].contents))
  }

  lemma NestedAppend(a: seq<Entry>, b: seq<Entry>)
    ensures Nested(a + b) <==> Nested(a) && Nested(b)
  {
    var ab := a + b;
    if Nested(a) && Nested(b) {
      forall i | 0 <= i < |ab|
        ensures !ab[i].ClearedDir? && (ab[i].Dir? ==> Nested(ab[i].contents))
      {
        if i < |a| { assert ab[i] == a[i]; } else { assert ab[i] == b[i - |a|]; }
      }
    }
    if Nested(ab) {
      forall i | 0 <= i < |a|
        ensures !a[i].ClearedDir? && (a[i].Dir? ==> Nested(a[i].contents))
      {
        assert ab[i] == a[i];
      }
      forall i | 0 <= i < |b|
        ensures !b[i].ClearedDir? && (b[i].Dir? ==> Nested(b[i].contents))
      {
        assert ab[|a| + i] == b[i];
      }
    }
  }

  lemma NestedInit(es: seq<Entry>)
    requires Nested(es) && es != []
    ensures Nested(es[..|es| - 1])
    ensures !es[|es| - 1].ClearedDir?
    ensures es[|es| - 1].Dir? ==> Nested(es[|es| - 1].contents)
  {
    assert es == es[..|es| - 1] + [es[|es| - 1]];
    NestedAppend(es[..|es| - 1], [es[|es| - 1]]);
  }
}
