/**
 * The dataset loader `readStateFromFile`: a text file of joint positions,
 * one frame per line, each line holding exactly `num_fields`
 * whitespace-separated numbers.
 *
 * Opening the file, splitting it into lines and converting each token with
 * `std::stod` are input handling: a file is given here as either
 * `Unopenable` or the sequence of its lines, each line already split into
 * its numeric tokens (a blank line is the empty sequence).
 */
module DatasetLoader {

  /** One timestep's joint-position vector. */
  type Frame = seq<real>

  /** The numeric tokens found on one line of the dataset file. */
  type Line = seq<real>

  /** What opening the dataset file yields. */
  datatype TextFile = Unopenable | Lines(lines: seq<Line>)

  /** The `std::pair<bool, deque>` that `readStateFromFile` returns. */
  datatype Loaded = Loaded(ok: bool, data: seq<Frame>)

  /** A line is accepted when its token count is exactly the expected count. */
  predicate WellFormed(line: Line, numFields: nat) {
    |line| == numFields
  }

  /**
   * The index of the first line whose token count differs from `numFields`,
   * or `|lines|` when every line is well formed.
   */
  function FirstMalformed(lines: seq<Line>, numFields: nat): (k: nat)
    ensures k <= |lines|
    ensures forall j :: 0 <= j < k ==> WellFormed(lines[j], numFields)
    ensures k < |lines| ==> !WellFormed(lines[k], numFields)
  {
    if lines == [] then 0
    else if !WellFormed(lines[0], numFields) then 0
    else 1 + FirstMalformed(lines[1..], numFields)
  }

  /**
   * What the loader returns for a file: `false` and nothing when the file
   * cannot be opened; otherwise the frames of the lines before the first
   * malformed line, with `true` exactly when there is no malformed line.
   */
  function Load(file: TextFile, numFields: nat): (r: Loaded)
    ensures file.Unopenable? ==> r == Loaded(false, [])
    ensures file.Lines? ==>
              (r.ok <==> forall i :: 0 <= i < |file.lines| ==> WellFormed(file.lines[i], numFields))
    ensures file.Lines? && r.ok ==> r.data == file.lines
    ensures file.Lines? && !r.ok ==>
              exists k :: 0 <= k < |file.lines| && !WellFormed(file.lines[k], numFields)
                          && (forall j :: 0 <= j < k ==> WellFormed(file.lines[j], numFields))
                          && r.data == file.lines[..k]
    ensures forall i :: 0 <= i < |r.data| ==> |r.data[i]| == numFields
  {
    match file
    case Unopenable => Loaded(false, [])
    case Lines(lines) =>
      var k := FirstMalformed(lines, numFields);
      assert lines[..|lines|] == lines;
      Loaded(k == |lines|, lines[..k])
  }

  /**
   * `readStateFromFile`. Every line is copied token by token into one
   * reused buffer of `numFields` entries, and the buffer is appended as a
   * frame once the token count has been checked. A line with more tokens
   * than `numFields` makes the source write past the end of that buffer
   * before the count check rejects the line; here the extra tokens are
   * only counted, and the count check rejects the line as in the source.
   */
  method ReadStateFromFile(file: TextFile, numFields: nat) returns (ok: bool, data: seq<Frame>)
    ensures Loaded(ok, data) == Load(file, numFields)
  {
    data := [];
    if file.Unopenable? {
      return false, data;
    }
    var lines := file.lines;
    var vector := new real[numFields];
    var foundLines := 0;
    while foundLines < |lines|
      invariant foundLines <= |lines|
      invariant vector.Length == numFields
      invariant forall j :: 0 <= j < foundLines ==> WellFormed(lines[j], numFields)
      invariant data == lines[..foundLines]
    {
      var l := lines[foundLines];
      var foundFields := 0;
      while foundFields < |l|
        invariant foundFields <= |l|
        invariant forall f :: 0 <= f < foundFields && f < numFields ==> vector[f] == l[f]
      {
        if foundFields < numFields {
          vector[foundFields] := l[foundFields];
        }
        foundFields := foundFields + 1;
      }
      if numFields != foundFields {
        assert FirstMalformed(lines, numFields) == foundLines;
        return false, data;
      }
      assert vector[..] == l;
      data := data + [vector[..]];
      foundLines := foundLines + 1;
      assert data == lines[..foundLines];
    }
    assert lines[..foundLines] == lines;
    return true, data;
  }

  /** A blank line makes the whole load fail whenever frames are non-empty. */
  lemma BlankLineFails(lines: seq<Line>, numFields: nat, i: nat)
    requires numFields > 0 && i < |lines| && lines[i] == []
    ensures !Load(Lines(lines), numFields).ok
    ensures |Load(Lines(lines), numFields).data| <= i
  {
  }
}
