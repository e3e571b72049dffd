/** Splitting a text at its first equals sign. */
module Partitioning {
  import opened Counting

  function Partition(text: string): Option<(string, string)>
    ensures Partition(text).Some? <==> '=' in text
    ensures Partition(text).Some? ==>
      var (name, rest) := Partition(text).value; text == name + "=" + rest && '=' !in name
  {
    if text == "" then None
    else if text[0] == '=' then Some(("", text[1..]))
    else
      match Partition(text[1..])
      case None => None
      case Some((name, rest)) => Some(([text[0]] + name, rest))
  }

  lemma {:induction false} PartitionUnique(name: string, raw: string)
    requires '=' !in name
    ensures Partition(name + "=" + raw) == Some((name, raw))
  {
    if name == "" {
      assert (name + "=" + raw)[1..] == raw;
    } else {
      PartitionUnique(name[1..], raw);
      assert (name + "=" + raw)[1..] == name[1..] + "=" + raw && (name + "=" + raw)[0] == name[0];
      assert name == [name[0]] + name[1..];
    }
  }
}
