/**
 * The common state of TrackMate's spot segmenters: the image, the expected
 * spot radius, the calibration, the result list, and an input validator
 * that reports the first check that fails.
 */
module SpotSegmentation {
  import opened Wrappers
  import opened Spots
  import opened Decimal
  import opened JavaInt

  /** The image to segment, reduced to what the segmenter reads of it. */
  datatype Image = Image(numDimensions: int)

  /** What checkInput accepts: a 2D or 3D image, a positive radius, a calibration of positive numbers. */
  predicate AcceptableInput(img: Option<Image>, radius: real, calibration: Option<seq<real>>) {
    && img.Some? && (img.value.numDimensions == 2 || img.value.numDimensions == 3)
    && radius > 0.0
    && calibration.Some? && forall k :: 0 <= k < |calibration.value| ==> calibration.value[k] > 0.0
  }

  /**
   * The message of the first failing check, in the order checkInput runs
   * them; None when every check passes.
   */
  function InputError(img: Option<Image>, radius: real, calibration: Option<seq<real>>): (r: Option<string>)
    ensures r.None? <==> AcceptableInput(img, radius, calibration)
    ensures img.None? ==> r == Some("Image is null.")
  {
    if img.None? then Some("Image is null.")
    else if !(img.value.numDimensions == 2 || img.value.numDimensions == 3) then
      Some("Image must be 2D or 3D, got " + IntToString(img.value.numDimensions) + "D.")
    else if radius <= 0.0 then Some("Search diameter is negative or 0.")
    else if calibration.None? then Some("Calibration array is null")
    else if exists k :: 0 <= k < |calibration.value| && calibration.value[k] <= 0.0 then
      Some("Calibration array has negative or 0 elements.")
    else None
  }

  /**
   * Any dimension count but 2 and 3 fails the image check, and its message
   * names that count in decimal: the digits read back as the count.
   */
  lemma DimensionMessage(n: int, radius: real, calibration: Option<seq<real>>)
    requires n != 2 && n != 3
    ensures InputError(Some(Image(n)), radius, calibration) == Some("Image must be 2D or 3D, got " + IntToString(n) + "D.")
    ensures InRange(n) ==> ParseInt(IntToString(n)) == Some(n)
  {
    if InRange(n) {
      IntToStringRoundTrip(n);
    }
  }

  /** A check that fails decides the message whatever the later fields hold. */
  lemma EarlierCheckWins(img: Option<Image>, radius: real, calibration: Option<seq<real>>, radius': real, calibration': Option<seq<real>>)
    requires img.Some? && (img.value.numDimensions == 2 || img.value.numDimensions == 3)
    requires radius <= 0.0 && radius' <= 0.0
    ensures InputError(img, radius, calibration) == InputError(img, radius', calibration') == Some("Search diameter is negative or 0.")
  {
  }

  class AbstractSpotSegmenter<S> {
    var baseErrorMessage: string
    var img: Option<Image>
    var radius: real
    var calibration: Option<seq<real>>
    var spots: seq<Spot>
    var intermediateImage: Option<Image>
    var errorMessage: Option<string>
    var settings: Option<S>

    /** The field initialisers: no image, radius 0, unit calibration in three dimensions, no spots. */
    constructor ()
      ensures baseErrorMessage == "" && img == None && radius == 0.0 && calibration == Some([1.0, 1.0, 1.0])
      ensures spots == [] && intermediateImage == None && errorMessage == None && settings == None
    {
      baseErrorMessage := "";
      img := None;
      radius := 0.0;
      calibration := Some([1.0, 1.0, 1.0]);
      spots := [];
      intermediateImage := None;
      errorMessage := None;
      settings := None;
    }

    /**
     * Runs the checks in order and stops at the first that fails, whose
     * message, after the base message, becomes the error message.
     */
    method CheckInput() returns (ok: bool)
      modifies this`errorMessage
      ensures ok <==> AcceptableInput(img, radius, calibration)
      ensures !ok ==> errorMessage == Some(baseErrorMessage + InputError(img, radius, calibration).value)
      ensures ok ==> errorMessage == old(errorMessage)
    {
      if img.None? {
        errorMessage := Some(baseErrorMessage + "Image is null.");
        return false;
      }
      if !(img.value.numDimensions == 2 || img.value.numDimensions == 3) {
        var message := "Image must be 2D or 3D, got " + IntToString(img.value.numDimensions) + "D.";
        errorMessage := Some(baseErrorMessage + message);
        return false;
      }
      if radius <= 0.0 {
        errorMessage := Some(baseErrorMessage + "Search diameter is negative or 0.");
        return false;
      }
      if calibration.None? {
        errorMessage := Some(baseErrorMessage + "Calibration array is null");
        return false;
      }
      var cal := calibration.value;
      for i := 0 to |cal|
        invariant forall k :: 0 <= k < i ==> cal[k] > 0.0
      {
        if cal[i] <= 0.0 {
          errorMessage := Some(baseErrorMessage + "Calibration array has negative or 0 elements.");
          return false;
        }
      }
      return true;
    }

    method SetSettings(settings: Option<S>)
      modifies this`settings
      ensures this.settings == settings
    {
      this.settings := settings;
    }

    method GetSettings() returns (s: Option<S>)
      ensures s == settings
    {
      return settings;
    }

    method GetIntermediateImage() returns (image: Option<Image>)
      ensures image == intermediateImage
    {
      return intermediateImage;
    }

    method GetResult() returns (result: seq<Spot>)
      ensures result == spots
    {
      return spots;
    }

    /** A new image drops the spots and the intermediate image of the previous one. */
    method SetImage(image: Option<Image>)
      modifies this`spots, this`intermediateImage, this`img
      ensures spots == [] && intermediateImage == None && img == image
    {
      spots := [];
      intermediateImage := None;
      img := image;
    }

    method SetCalibration(calibration: Option<seq<real>>)
      modifies this`calibration
      ensures this.calibration == calibration
    {
      this.calibration := calibration;
    }

    method SetEstimatedRadius(radius: real)
      modifies this`radius
      ensures this.radius == radius
    {
      this.radius := radius;
    }

    method GetErrorMessage() returns (message: Option<string>)
      ensures message == errorMessage
    {
      return errorMessage;
    }
  }
}
