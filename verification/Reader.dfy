/**
 What the bounded reader accepts, for a document whose tree is known.

 The reader looks at the size of a text, scans it, and only then builds the
 tree, which may have so many nodes and no more. Signing and timestamping read
 the text again before every pass, always under the default limits.
 */
module Reader {
  import opened XmlTree
  import opened SourceText
  import Scan

  datatype Limits = Limits(maxInput: nat, maxDepth: nat, maxElements: nat)

  const DEFAULT_LIMITS: Limits := Limits(67108864, 128, 1000000)

  function NodeCount(n: Node): nat
    decreases n, 1
  {
    1 + if n.Root? || n.Element? then NodeCountAll(n.children) else 0
  }

  function NodeCountAll(kids: seq<Node>): nat
    decreases kids, 0
  {
    if kids == [] then 0 else NodeCount(kids[0]) + NodeCountAll(kids[1..])
  }

  /** Four nodes for each element allowed, in 32 bits. */
  function MaxNodes(limits: Limits): nat {
    if 4 * limits.maxElements > 0xFFFF_FFFF then 0xFFFF_FFFF else 4 * limits.maxElements
  }

  /** The scan accepts the text of `doc`. */
  predicate Scans(doc: Node, limits: Limits) {
    Scan.ScanRest(Source(doc), 0, Scan.Summary(0, 0), Scan.Limits(limits.maxDepth, limits.maxElements)).Ok?
  }

  /** The text of `doc` is read. */
  predicate Reads(doc: Node, limits: Limits) {
    |Source(doc)| <= limits.maxInput && Scans(doc, limits) && NodeCount(doc) <= MaxNodes(limits)
  }

  /** Reading the text of `doc`, check by check. */
  method Read(text: string, doc: Node, limits: Limits) returns (ok: bool)
    requires text == Source(doc)
    ensures ok == Reads(doc, limits)
  {
    hide Source, NodeCount;
    if |text| > limits.maxInput {
      return false;
    }
    var summary := Scan.Prescan(text, Scan.Limits(limits.maxDepth, limits.maxElements));
    if summary.Err? {
      return false;
    }
    return NodeCount(doc) <= MaxNodes(limits);
  }
}
