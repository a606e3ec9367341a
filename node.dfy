/**
 * The node of the graphical editor (src/gui_editor/node.rs) without its
 * geometry: identity, label, header flag, foreground colour and the final
 * flag, together with the colour packing that `serialize` writes and
 * `deserialize` reads back.
 */
module Nodes {

  /** An RGB colour, one byte per channel (the alpha channel is never stored). */
  datatype Rgb = Rgb(r: bv8, g: bv8, b: bv8)

  /** `name` is the `label` field of the source (`label` is a keyword here). */
  datatype NodeValue = NodeValue(id: nat, name: string, separateHeader: bool, colour: Rgb, isFinal: bool)

  /** `Node::new`: every node starts out non-final. */
  function NewNode(id: nat, name: string, colour: Rgb, separateHeader: bool): (n: NodeValue)
    ensures !n.isFinal
    ensures n.id == id && n.name == name && n.colour == colour && n.separateHeader == separateHeader
  {
    NodeValue(id, name, separateHeader, colour, false)
  }

  /** The colour field of `serialize`: `r << 16 | g << 8 | b` in a `u32`. */
  function PackColour(c: Rgb): (x: bv32)
    ensures x < 0x100_0000
    ensures (x >> 16) as bv8 == c.r && ((x >> 8) & 0xFF) as bv8 == c.g && (x & 0xFF) as bv8 == c.b
  {
    ((c.r as bv32) << 16) | ((c.g as bv32) << 8) | (c.b as bv32)
  }

  /** The colour field of `deserialize`: bytes 2, 1 and 0 masked out and cast to `u8`. */
  function UnpackColour(x: bv32): Rgb {
    Rgb(((x & 0x00FF_0000) >> 16) as bv8, ((x & 0x0000_FF00) >> 8) as bv8, (x & 0x0000_00FF) as bv8)
  }

  /** Unpacking a packed colour gives the colour back. */
  lemma UnpackPack(c: Rgb)
    ensures UnpackColour(PackColour(c)) == c
  {
  }

  /** Unpacking reads only the low 24 bits. */
  lemma UnpackIgnoresHighBits(x: bv32)
    ensures UnpackColour(x) == UnpackColour(x & 0xFF_FFFF)
  {
  }

  /** Every value below 2^24 is the packing of exactly one colour: the one it unpacks to. */
  lemma PackUnpack(x: bv32)
    requires x < 0x100_0000
    ensures PackColour(UnpackColour(x)) == x
  {
  }

  /** The node `deserialize` builds from the id, label, header and colour fields. */
  function Deserialised(id: nat, name: string, separateHeader: bool, colour: bv32): (n: NodeValue)
    ensures !n.isFinal
  {
    NewNode(id, name, UnpackColour(colour), separateHeader)
  }

  /**
   * Writing a node's fields and reading them back restores the node except
   * for `is_final`, which is not written and comes back false.
   */
  lemma SerialisedFieldsRoundTrip(n: NodeValue)
    ensures Deserialised(n.id, n.name, n.separateHeader, PackColour(n.colour)) == n.(isFinal := false)
  {
    UnpackPack(n.colour);
  }
}
