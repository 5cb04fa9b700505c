/**
 What Splunk makes of the generated indexes.conf: which stanzas it has, whether their names are unique,
 and where its volume references lead.
 */
module ConfReader {
  import opened Wrappers
  import opened Text
  import opened Decimal
  import opened SmartStore
  import opened IndexesConf

  datatype Stanza = Stanza(name: string, settings: seq<string>)

  predicate Blank(line: string) {
    forall c <- line :: c == ' '
  }

  predicate IsHeader(line: string) {
    |line| >= 2 && line[0] == '[' && line[|line| - 1] == ']'
  }

  /** A line adds a stanza, or a setting to the last one. */
  function ReadLine(line: string, stanzas: seq<Stanza>): seq<Stanza> {
    if Blank(line) then stanzas
    else if IsHeader(line) then stanzas + [Stanza(line[1..|line| - 1], [])]
    else if stanzas == [] then []
    else
      var last := stanzas[|stanzas| - 1];
      stanzas[|stanzas| - 1 := last.(settings := last.settings + [line])]
  }

  function ReadLines(lines: seq<string>, stanzas: seq<Stanza>): seq<Stanza>
    decreases |lines|
  {
    if lines == [] then stanzas else ReadLines(lines[1..], ReadLine(lines[0], stanzas))
  }

  function ReadConf(text: string): seq<Stanza> {
    ReadLines(Split(text, '\n'), [])
  }

  lemma {:induction false} ReadAppend(a: seq<string>, b: seq<string>, stanzas: seq<Stanza>)
    ensures ReadLines(a + b, stanzas) == ReadLines(b, ReadLines(a, stanzas))
    decreases |a|
  {
    if a == [] {
      assert a + b == b;
    } else {
      assert (a + b)[1..] == a[1..] + b && (a + b)[0] == a[0];
      ReadAppend(a[1..], b, ReadLine(a[0], stanzas));
    }
  }

  predicate IsSetting(line: string) {
    line != "" && line[0] != '[' && line[0] != ' '
  }

  /** A header line and settings, each a single line. */
  ghost predicate ProperBlock(b: seq<string>) {
    && b != [] && IsHeader(b[0])
    && (forall i :: 0 < i < |b| ==> IsSetting(b[i]))
    && (forall i :: 0 <= i < |b| ==> '\n' !in b[i])
  }

  function StanzaOf(b: seq<string>): Stanza {
    if b == [] || |b[0]| < 2 then Stanza("", []) else Stanza(b[0][1..|b[0]| - 1], b[1..])
  }

  function StanzasOf(blocks: seq<seq<string>>): (r: seq<Stanza>)
    ensures |r| == |blocks|
  {
    if blocks == [] then [] else [StanzaOf(blocks[0])] + StanzasOf(blocks[1..])
  }

  lemma {:induction false} StanzaAt(blocks: seq<seq<string>>, i: nat)
    requires i < |blocks|
    ensures StanzasOf(blocks)[i] == StanzaOf(blocks[i])
  {
    if i > 0 {
      StanzaAt(blocks[1..], i - 1);
    }
  }

  lemma StanzasCons(stanzas: seq<Stanza>, blocks: seq<seq<string>>)
    ensures blocks == [] ==> stanzas + StanzasOf(blocks) == stanzas
    ensures blocks != [] ==> (stanzas + [StanzaOf(blocks[0])]) + StanzasOf(blocks[1..]) == stanzas + StanzasOf(blocks)
  {
  }

  lemma {:induction false} ReadSettings(lines: seq<string>, stanzas: seq<Stanza>, name: string, settings: seq<string>)
    requires forall i :: 0 <= i < |lines| ==> IsSetting(lines[i])
    ensures ReadLines(lines, stanzas + [Stanza(name, settings)]) == stanzas + [Stanza(name, settings + lines)]
    decreases |lines|
  {
    if lines == [] {
      assert settings + lines == settings;
    } else {
      var so := stanzas + [Stanza(name, settings)];
      assert lines[0][0] in lines[0];
      assert ReadLine(lines[0], so) == stanzas + [Stanza(name, settings + [lines[0]])];
      ReadSettings(lines[1..], stanzas, name, settings + [lines[0]]);
      assert (settings + [lines[0]]) + lines[1..] == settings + lines;
    }
  }

  /** A block reads as one more stanza. */
  lemma ReadBlock(b: seq<string>, stanzas: seq<Stanza>)
    requires ProperBlock(b)
    ensures ReadLines(b, stanzas) == stanzas + [StanzaOf(b)]
  {
    assert b[0][0] in b[0];
    ReadSettings(b[1..], stanzas, StanzaOf(b).name, []);
    assert [] + b[1..] == b[1..];
  }

  lemma ReadBlankFirst(prefix: string, lines: seq<string>, stanzas: seq<Stanza>)
    requires Blank(prefix)
    ensures ReadLines([prefix] + lines, stanzas) == ReadLines(lines, stanzas)
  {
    assert ([prefix] + lines)[1..] == lines;
  }

  /** The text of a block, after a blank line and before more text. */
  lemma SplitBlock(prefix: string, b: seq<string>, more: string)
    requires '\n' !in prefix && ProperBlock(b)
    ensures Split(prefix + ("\n" + Join(b, '\n') + "\n" + more), '\n') == [prefix] + (b + Split(more, '\n'))
  {
    var rest := Join(b, '\n') + "\n" + more;
    assert prefix + ("\n" + Join(b, '\n') + "\n" + more) == prefix + "\n" + rest;
    SplitCons(prefix, rest, '\n');
    SplitAppend(Join(b, '\n'), more, '\n');
    forall p | p in b ensures '\n' !in p {
      var i :| 0 <= i < |b| && b[i] == p;
    }
    SplitJoin(b, '\n');
  }

  lemma ReadOneBlock(prefix: string, b: seq<string>, more: string, stanzas: seq<Stanza>)
    requires Blank(prefix) && ProperBlock(b)
    ensures ReadLines(Split(prefix + ("\n" + Join(b, '\n') + "\n" + more), '\n'), stanzas)
      == ReadLines(Split(more, '\n'), stanzas + [StanzaOf(b)])
  {
    SplitBlock(prefix, b, more);
    ReadBlankFirst(prefix, b + Split(more, '\n'), stanzas);
    ReadAppend(b, Split(more, '\n'), stanzas);
    ReadBlock(b, stanzas);
  }

  ghost predicate ProperBlocks(blocks: seq<seq<string>>) {
    forall i :: 0 <= i < |blocks| ==> ProperBlock(blocks[i])
  }

  lemma BlocksCons(prefix: string, blocks: seq<seq<string>>, tail: string)
    requires blocks != []
    ensures prefix + (Blocks(blocks) + tail)
      == prefix + ("\n" + Join(blocks[0], '\n') + "\n" + (Blocks(blocks[1..]) + tail))
  {
    var head, rest := "\n" + Join(blocks[0], '\n') + "\n", Blocks(blocks[1..]);
    assert (head + rest) + tail == head + (rest + tail);
  }

  /** Blocks read as their stanzas. */
  lemma {:induction false} ReadMoreBlocks(blocks: seq<seq<string>>, tail: string, stanzas: seq<Stanza>)
    requires ProperBlocks(blocks)
    ensures ReadLines(Split(Blocks(blocks) + tail, '\n'), stanzas)
      == ReadLines(Split(tail, '\n'), stanzas + StanzasOf(blocks))
    decreases |blocks|
  {
    StanzasCons(stanzas, blocks);
    if blocks == [] {
      assert Blocks(blocks) + tail == tail;
    } else {
      ReadFirstBlock("", blocks, tail, stanzas);
      ReadMoreBlocks(blocks[1..], tail, stanzas + [StanzaOf(blocks[0])]);
      assert "" + (Blocks(blocks) + tail) == Blocks(blocks) + tail;
    }
  }

  lemma ReadFirstBlock(prefix: string, blocks: seq<seq<string>>, tail: string, stanzas: seq<Stanza>)
    requires Blank(prefix) && ProperBlocks(blocks) && blocks != []
    ensures ReadLines(Split(prefix + (Blocks(blocks) + tail), '\n'), stanzas)
      == ReadLines(Split(Blocks(blocks[1..]) + tail, '\n'), stanzas + [StanzaOf(blocks[0])])
  {
    BlocksCons(prefix, blocks, tail);
    ReadOneBlock(prefix, blocks[0], Blocks(blocks[1..]) + tail, stanzas);
  }

  /** ... also after blank text, which the first block ends, or which runs on into what follows. */
  lemma ReadBlocks(prefix: string, blocks: seq<seq<string>>, tail: string, stanzas: seq<Stanza>)
    requires Blank(prefix) && ProperBlocks(blocks)
    ensures ReadLines(Split(prefix + (Blocks(blocks) + tail), '\n'), stanzas)
      == ReadLines(Split(if blocks == [] then prefix + tail else tail, '\n'), stanzas + StanzasOf(blocks))
  {
    StanzasCons(stanzas, blocks);
    if blocks == [] {
      assert Blocks(blocks) + tail == tail;
    } else {
      ReadFirstBlock(prefix, blocks, tail, stanzas);
      ReadMoreBlocks(blocks[1..], tail, stanzas + [StanzaOf(blocks[0])]);
    }
  }
}
