/**
  Picking the YAML lines out of a Pandoc Markdown document, as
  `get_yaml_lines` does (identically in `panache/panache.py` and
  `src/panache.py`).

  A block opens with a line of exactly three dashes and closes with a line of
  three characters from `-` and `.`, either line optionally followed by
  whitespace. Lines between an opening and its closing line are YAML; several
  blocks are concatenated; a block that is never closed runs to the end.
*/
module FrontMatter {

  /** The characters Python's `\s` matches in a `str` pattern. */
  predicate IsWhitespace(c: char) {
    || c == ' ' || ('\t' <= c <= '\r') || ('\U{1C}' <= c <= '\U{1F}')
    || c == '\U{85}' || c == '\U{A0}' || c == '\U{1680}' || ('\U{2000}' <= c <= '\U{200A}')
    || c == '\U{2028}' || c == '\U{2029}' || c == '\U{202F}' || c == '\U{205F}' || c == '\U{3000}'
  }

  predicate AllWhitespace(s: string) {
    forall i :: 0 <= i < |s| ==> IsWhitespace(s[i])
  }

  /** `^[-]{3}\s*$`. */
  predicate IsOpening(line: string) {
    |line| >= 3 && line[..3] == "---" && AllWhitespace(line[3..])
  }

  /** `^[-.]{3}\s*$`. */
  predicate IsClosing(line: string) {
    |line| >= 3 && (forall i :: 0 <= i < 3 ==> line[i] == '-' || line[i] == '.') && AllWhitespace(line[3..])
  }

  /** Every opening line would also close a block. */
  lemma OpeningCloses(line: string)
    requires IsOpening(line)
    ensures IsClosing(line)
  {
    assert forall i :: 0 <= i < 3 ==> line[i] == line[..3][i];
  }

  /** The YAML lines of `lines`, read with the block state `inYaml`. */
  function YamlLines(lines: seq<string>, inYaml: bool): seq<string> {
    if lines == [] then []
    else if !inYaml then YamlLines(lines[1..], IsOpening(lines[0]))
    else if IsClosing(lines[0]) then YamlLines(lines[1..], false)
    else [lines[0]] + YamlLines(lines[1..], true)
  }

  /** `get_yaml_lines(lines)`. */
  method GetYamlLines(lines: seq<string>) returns (yamlLines: seq<string>)
    ensures yamlLines == YamlLines(lines, false)
  {
    var inYaml := false;
    yamlLines := [];
    for i := 0 to |lines|
      invariant yamlLines + YamlLines(lines[i..], inYaml) == YamlLines(lines, false)
    {
      assert lines[i..][1..] == lines[i + 1..];
      var line := lines[i];
      if !inYaml {
        if IsOpening(line) {
          inYaml := true;
        }
      } else {
        if IsClosing(line) {
          inYaml := false;
        } else {
          yamlLines := yamlLines + [line];
        }
      }
    }
  }

  /** Every YAML line is a line of the document, and never a closing line. */
  lemma {:induction false} YamlLinesFromInput(lines: seq<string>, inYaml: bool)
    ensures forall l :: l in YamlLines(lines, inYaml) ==> l in lines && !IsClosing(l)
  {
    if lines != [] {
      YamlLinesFromInput(lines[1..], if inYaml then !IsClosing(lines[0]) else IsOpening(lines[0]));
    }
  }

  /** Lines outside a block that do not open one are skipped. */
  lemma {:induction false} SkipOutside(pre: seq<string>, rest: seq<string>)
    requires forall l :: l in pre ==> !IsOpening(l)
    ensures YamlLines(pre + rest, false) == YamlLines(rest, false)
  {
    if pre != [] {
      assert (pre + rest)[0] == pre[0] && (pre + rest)[1..] == pre[1..] + rest;
      assert pre[0] in pre && forall l :: l in pre[1..] ==> l in pre;
      SkipOutside(pre[1..], rest);
    } else {
      assert pre + rest == rest;
    }
  }

  /** Inside a block, lines up to the closing one are taken as they are. */
  lemma {:induction false} TakeInside(body: seq<string>, rest: seq<string>)
    requires forall l :: l in body ==> !IsClosing(l)
    ensures YamlLines(body + rest, true) == body + YamlLines(rest, true)
  {
    if body != [] {
      assert (body + rest)[0] == body[0] && (body + rest)[1..] == body[1..] + rest;
      assert body[0] in body && forall l :: l in body[1..] ==> l in body;
      assert body == [body[0]] + body[1..];
      TakeInside(body[1..], rest);
    } else {
      assert body + rest == rest;
    }
  }

  /**
    A document made of text without an opening line, one block and anything
    after it: the YAML lines are the block's body followed by the YAML lines
    of what comes after.
  */
  lemma OneBlock(pre: seq<string>, open: string, body: seq<string>, close: string, post: seq<string>)
    requires forall l :: l in pre ==> !IsOpening(l)
    requires IsOpening(open) && IsClosing(close)
    requires forall l :: l in body ==> !IsClosing(l)
    ensures YamlLines(pre + [open] + body + [close] + post, false) == body + YamlLines(post, false)
  {
    assert pre + [open] + body + [close] + post == pre + ([open] + (body + ([close] + post)));
    SkipOutside(pre, [open] + (body + ([close] + post)));
    assert ([open] + (body + ([close] + post)))[1..] == body + ([close] + post);
    TakeInside(body, [close] + post);
    assert ([close] + post)[1..] == post;
  }

  /** A block that is never closed runs to the end of the document. */
  lemma UnclosedBlock(pre: seq<string>, open: string, body: seq<string>)
    requires forall l :: l in pre ==> !IsOpening(l)
    requires IsOpening(open)
    requires forall l :: l in body ==> !IsClosing(l)
    ensures YamlLines(pre + [open] + body, false) == body
  {
    assert pre + [open] + body == pre + ([open] + (body + []));
    SkipOutside(pre, [open] + (body + []));
    assert ([open] + (body + []))[1..] == body + [];
    TakeInside(body, []);
  }

  /** Without an opening line there is no YAML, whatever closing lines there are. */
  lemma NoOpeningNoYaml(lines: seq<string>)
    requires forall l :: l in lines ==> !IsOpening(l)
    ensures YamlLines(lines, false) == []
  {
    SkipOutside(lines, []);
    assert lines + [] == lines;
  }

  /** The document `"\n---\nfoo: bar\n...\n\n---\nfoo: bar\n...\n"` split into lines: both blocks are found. */
  lemma TwoBlocksExample()
    ensures YamlLines(["\n", "---\n", "foo: bar\n", "...\n", "\n", "---\n", "foo: bar\n", "...\n", "\n"], false)
         == ["foo: bar\n", "foo: bar\n"]
  {
    var dots := "...\n";
    assert IsClosing(dots) by {
      assert dots[0] == '.' && dots[1] == '.' && dots[2] == '.' && dots[3..] == "\n";
    }
    assert IsOpening("---\n") by {
      assert "---\n"[..3] == "---" && "---\n"[3..] == "\n";
    }
    assert !IsOpening("\n");
    assert !IsClosing("foo: bar\n") by {
      assert "foo: bar\n"[0] == 'f';
    }
    assert ["\n", "---\n", "foo: bar\n", "...\n", "\n", "---\n", "foo: bar\n", "...\n", "\n"]
        == ["\n"] + ["---\n"] + ["foo: bar\n"] + [dots] + (["\n", "---\n", "foo: bar\n", "...\n", "\n"]);
    OneBlock(["\n"], "---\n", ["foo: bar\n"], dots, ["\n", "---\n", "foo: bar\n", "...\n", "\n"]);
    assert ["\n", "---\n", "foo: bar\n", "...\n", "\n"] == ["\n"] + ["---\n"] + ["foo: bar\n"] + [dots] + ["\n"];
    OneBlock(["\n"], "---\n", ["foo: bar\n"], dots, ["\n"]);
    NoOpeningNoYaml(["\n"]);
  }

  /** `"...\nfoo: bar\n...\nblub"` split into lines: a dotted line cannot open a block. */
  lemma DotsDoNotOpenExample()
    ensures YamlLines(["...\n", "foo: bar\n", "...\n", "blub\n"], false) == []
  {
    assert "...\n"[..3] != "---" by {
      assert "...\n"[..3][0] == '.';
    }
    assert "foo: bar\n"[..3] != "---" by {
      assert "foo: bar\n"[..3][0] == 'f';
    }
    assert "blub\n"[..3] != "---" by {
      assert "blub\n"[..3][0] == 'b';
    }
    NoOpeningNoYaml(["...\n", "foo: bar\n", "...\n", "blub\n"]);
  }
}
