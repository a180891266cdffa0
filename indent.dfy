/** `get_indent` (src/lib.rs:123-131): `depth` tab characters. */
module Indentation {

  /** `depth` tabs. */
  function Indent(depth: nat): string {
    seq(depth, _ => '\t')
  }

  /** `get_indent` as the source writes it: a counting loop that pushes one
      tab per level. */
  method GetIndent(depth: nat) returns (indent: string)
    ensures |indent| == depth
    ensures forall i | 0 <= i < depth :: indent[i] == '\t'
    ensures indent == Indent(depth)
  {
    indent := "";
    for n := 0 to depth
      invariant |indent| == n
      invariant forall i | 0 <= i < n :: indent[i] == '\t'
    {
      indent := indent + "\t";
    }
  }
}
