/**
 * The image-rounding script: the `round_image` routine (load, compute the
 * corner radius, draw the rounded-rectangle mask, save) and its command-line
 * contract (exactly four arguments; `SUCCESS` on standard output when the
 * routine returns; exit status 1 on a wrong argument count, on a radius that
 * does not parse, and on any exception of the routine).
 *
 * The imaging library is not modelled: opening an image and saving it are an
 * `ImageStore` whose outcome per path is given, and turning the radius
 * argument into a number is a given parser.
 */
module Script {
  import opened Radius

  datatype Option<T> = None | Some(value: T)

  datatype Result<T> = Ok(value: T) | Err(message: string)

  /** What opening and converting the image at a path yields. */
  datatype LoadResult = Loaded(width: nat, height: nat) | LoadError(message: string)

  /** What saving the result as PNG at a path yields. */
  datatype SaveResult = Saved | SaveError(message: string)

  datatype ImageStore = ImageStore(open: string -> LoadResult, save: string -> SaveResult)

  /** The greyscale mask put on the image as its alpha channel: `width` by
      `height`, background 0, and a rectangle from (0, 0) to (width, height)
      with corners of radius `cornerRadius` filled with 255. */
  datatype Mask = Mask(width: nat, height: nat, cornerRadius: int)

  /** What goes to standard error. */
  datatype Diagnostic =
    | Quiet
    | Printed(text: string)   // the script's own `ERROR: ...` line
    | Traceback               // an exception the script does not catch

  /** The observable outcome of one run of the script. */
  datatype Exit = Exit(stdout: string, stderr: Diagnostic, code: int)

  const SuccessLine: string := "SUCCESS\n"
  const ErrorPrefix: string := "ERROR: "

  /** The argument vector has the program name and four arguments. */
  const ArgCount: nat := 5

  /** `round_image`: open the image, draw its mask with the clamped integer
      radius, and save it; any failure is the exception's message. */
  function RoundImage(store: ImageStore, inputPath: string, outputPath: string,
                      radiusValue: real, unit: string): (r: Result<Mask>)
    ensures r.Ok? <==> store.open(inputPath).Loaded? && store.save(outputPath).Saved?
    ensures store.open(inputPath).LoadError? ==> r == Err(store.open(inputPath).message)
    ensures store.open(inputPath).Loaded? && store.save(outputPath).SaveError?
      ==> r == Err(store.save(outputPath).message)
    ensures r.Ok? ==>
      var img := store.open(inputPath);
      && r.value.width == img.width && r.value.height == img.height
      && 0 <= r.value.cornerRadius <= BaseDimension(img.width, img.height) / 2
      && r.value.cornerRadius as real <= ComputeRadius(img.width, img.height, radiusValue, unit)
      && r.value.cornerRadius == RadiusInt(img.width, img.height, radiusValue, unit)
  {
    match store.open(inputPath)
    case LoadError(e) => Err(e)
    case Loaded(w, h) =>
      var mask := Mask(w, h, RadiusInt(w, h, radiusValue, unit));
      match store.save(outputPath)
      case SaveError(e) => Err(e)
      case Saved => Ok(mask)
  }

  /** The `__main__` block run on the argument vector `argv` (program name
      first). `parseFloat` is Python's `float()` on the radius argument,
      `None` where it raises. */
  function RunScript(argv: seq<string>, parseFloat: string -> Option<real>,
                     store: ImageStore): (res: Exit)
    ensures res.code == 0 || res.code == 1
    ensures res.stdout == SuccessLine || res.stdout == ""
    ensures res.code == 0 <==> res.stdout == SuccessLine
    ensures |argv| != ArgCount ==> res == Exit("", Quiet, 1)
    ensures res.code == 0 <==>
      && |argv| == ArgCount
      && parseFloat(argv[3]).Some?
      && store.open(argv[1]).Loaded?
      && store.save(argv[2]).Saved?
    ensures res.stderr.Traceback? <==> |argv| == ArgCount && parseFloat(argv[3]).None?
    ensures res.stderr.Printed? <==>
      && |argv| == ArgCount
      && parseFloat(argv[3]).Some?
      && RoundImage(store, argv[1], argv[2], parseFloat(argv[3]).value, argv[4]).Err?
    ensures res.stderr.Printed? ==>
      && res.code == 1 && res.stdout == ""
      && res.stderr.text
         == ErrorPrefix + RoundImage(store, argv[1], argv[2], parseFloat(argv[3]).value, argv[4]).message + "\n"
  {
    if |argv| != ArgCount then Exit("", Quiet, 1)
    else
      match parseFloat(argv[3])
      case None => Exit("", Traceback, 1)
      case Some(radiusValue) =>
        match RoundImage(store, argv[1], argv[2], radiusValue, argv[4])
        case Ok(_) => Exit(SuccessLine, Quiet, 0)
        case Err(e) => Exit("", Printed(ErrorPrefix + e + "\n"), 1)
  }

  /** The smoke test's solid-border invocation: the interpreter, the script,
      the four radius-only arguments and eight effect arguments. */
  const SolidBorderInvocation: seq<string> :=
    ["python3", "round_image.py", "test_input.png", "test_solid.png", "20", "percent",
     "false", "#000000", "10", "5", "true", "#ff0000", "3", "solid"]

  /** Python drops the interpreter from the vector, so the script sees the
      other thirteen entries, which is not five: the run fails with status 1
      and prints no `SUCCESS`, whatever the images and the parser do. */
  lemma EffectInvocationRejected(parseFloat: string -> Option<real>, store: ImageStore)
    ensures |SolidBorderInvocation[1..]| == 13
    ensures RunScript(SolidBorderInvocation[1..], parseFloat, store) == Exit("", Quiet, 1)
  {
  }
}
