/** `logAndPrint`: besides logging, a message is printed as one line on the console, on
    the error stream for the alerting levels and on the standard stream otherwise. Only
    the choice of stream and the printed text are modelled. */
module Console {

  /** A `java.util.logging.Level`: its name and its integer value. `Level.equals`
      compares the values only. */
  datatype Level = Level(name: string, value: int)

  const SEVERE := Level("SEVERE", 1000)
  const WARNING := Level("WARNING", 900)
  const INFO := Level("INFO", 800)
  const CONFIG := Level("CONFIG", 700)
  const FINE := Level("FINE", 500)
  const FINER := Level("FINER", 400)
  const FINEST := Level("FINEST", 300)
  const ALL := Level("ALL", -0x8000_0000)
  const OFF := Level("OFF", 0x7fff_ffff)

  /** `Level.equals`. */
  predicate SameLevel(a: Level, b: Level) {
    a.value == b.value
  }

  datatype Stream = StdOut | StdErr

  datatype ConsoleLine = ConsoleLine(stream: Stream, text: string)

  /** The console side of `logAndPrint(level, msg)` and of `logAndPrint(level, msg, thrown)`:
      `String.format("[%s] %s", level.getName(), msg)` on `System.err` when the level
      equals SEVERE or WARNING, else on `System.out`. */
  function LogAndPrint(level: Level, msg: string): (line: ConsoleLine)
    ensures line.stream == StdErr <==> level.value == 1000 || level.value == 900
    ensures |line.text| == |level.name| + 3 + |msg|
    ensures line.text[0] == '[' && line.text[1..|level.name| + 1] == level.name
    ensures line.text[|level.name| + 1..|level.name| + 3] == "] "
    ensures line.text[|level.name| + 3..] == msg
  {
    var text := "[" + level.name + "] " + msg;
    if SameLevel(SEVERE, level) || SameLevel(WARNING, level)
    then ConsoleLine(StdErr, text)
    else ConsoleLine(StdOut, text)
  }

  /** Of the standard levels exactly SEVERE and WARNING are printed on the error stream,
      and the message is printed after its tag whatever the level. */
  lemma StandardLevelRouting(msg: string)
    ensures forall l :: l in [SEVERE, WARNING] ==> LogAndPrint(l, msg).stream == StdErr
    ensures forall l :: l in [INFO, CONFIG, FINE, FINER, FINEST, ALL, OFF] ==> LogAndPrint(l, msg).stream == StdOut
    ensures forall l: Level :: LogAndPrint(l, msg).text == "[" + l.name + "] " + msg
  {
    forall l: Level ensures LogAndPrint(l, msg).text == "[" + l.name + "] " + msg {
      var t := LogAndPrint(l, msg).text;
      assert t == t[..1] + t[1..|l.name| + 1] + t[|l.name| + 1..|l.name| + 3] + t[|l.name| + 3..];
    }
  }
}
