/** Resource tags as the provider reports them and as requests carry them. */
module Tags {
  import opened Wrappers

  /** A tag read back from the provider: `{'Key': key, 'Value': value}`. */
  datatype Tag = Tag(key: string, value: string)

  /** A tag in an outgoing request; its value is taken from a Python variable that may be None. */
  datatype RequestTag = RequestTag(key: string, value: Option<string>)

  /** `next((t['Value'] for t in tags if t['Key'] == key), None)`: the value of the
      FIRST tag carrying `key`, or None when no tag does. */
  function FirstValue(tags: seq<Tag>, key: string): (r: Option<string>)
    ensures r.None? <==> forall i :: 0 <= i < |tags| ==> tags[i].key != key
    ensures r.Some? ==>
      exists i :: 0 <= i < |tags| && tags[i].key == key && tags[i].value == r.value &&
        forall j :: 0 <= j < i ==> tags[j].key != key
  {
    if tags == [] then None
    else if tags[0].key == key then Some(tags[0].value)
    else
      var r := FirstValue(tags[1..], key);
      if r.Some? then
        var i :| 0 <= i < |tags[1..]| && tags[1..][i].key == key && tags[1..][i].value == r.value &&
          (forall j :: 0 <= j < i ==> tags[1..][j].key != key);
        assert tags[i + 1] == tags[1..][i];
        r
      else
        r
  }
}