/**
 * The upload screen of the front end (frontend/src/pages/home/components/UploadSection.tsx):
 * two independent slots, `image` and `logo`, each holding at most one accepted
 * file with its preview object URL; per-slot drag flags; and the submission
 * of both files to the watermarking endpoint.
 *
 * The browser's object-URL registry is modelled by a counter that hands out
 * fresh URLs and a ghost set `live` of the URLs created and not yet revoked.
 * The fetch is replaced by a FetchOutcome parameter; alerts are returned.
 */
module Upload {
  import opened Wrappers

  /** The two upload slots. */
  datatype Role = Image | Logo

  function Other(role: Role): Role
  {
    if role == Image then Logo else Image
  }

  /** A user-chosen file: its name and its declared MIME type. */
  datatype File = File(name: string, mimeType: string)

  /** A revocable `blob:` URL handed out by URL.createObjectURL. */
  datatype ObjectUrl = ObjectUrl(id: nat)

  /** An accepted file together with its preview URL. */
  datatype FilePreview = FilePreview(file: File, preview: ObjectUrl)

  /** One named part of the multipart form. */
  datatype FormPart = FormPart(field: string, file: File)

  /** The request handleProcess sends. */
  datatype Request = Request(verb: string, url: string, parts: seq<FormPart>)

  /**
   * How the awaited fetch ends: the promise rejects (network error, or the
   * body cannot be read), or a response arrives with its `ok` flag.
   */
  datatype FetchOutcome = Rejected | Response(ok: bool)

  /** The router state carried to the output page. */
  datatype Handoff = Handoff(watermarkedImage: ObjectUrl, originalFileName: string)

  const ImageMimePrefix: string := "image/"
  const NotAnImageAlert: string := "Please upload an image file"
  const MissingFileAlert: string := "Please upload both an image and a logo"
  const ProcessingFailedAlert: string := "Something went wrong while processing the image."
  const WatermarkEndpoint: string := "http://127.0.0.1:5001/add_watermark"
  const OutputNamePrefix: string := "watermarked-"

  /** `file.type.startsWith('image/')` */
  predicate IsImageType(mimeType: string)
  {
    ImageMimePrefix <= mimeType
  }

  /** The suggested download name: the original name behind the fixed prefix, recoverable from it. */
  function WatermarkedName(name: string): (r: string)
    ensures |r| == |OutputNamePrefix| + |name|
    ensures r[..|OutputNamePrefix|] == OutputNamePrefix
    ensures r[|OutputNamePrefix|..] == name
  {
    OutputNamePrefix + name
  }

  /** The POST with the main image under `main_image`, then the logo under `watermark_image`. */
  function SubmissionRequest(image: File, logo: File): Request
  {
    Request("POST", WatermarkEndpoint, [FormPart("main_image", image), FormPart("watermark_image", logo)])
  }

  /** The preview URL a slot holds, as a set of at most one element. */
  ghost function PreviewOf(slot: Option<FilePreview>): set<ObjectUrl>
  {
    if slot.Some? then {slot.value.preview} else {}
  }

  class UploadSection {
    var imageFile: Option<FilePreview>
    var logoFile: Option<FilePreview>
    var isDraggingImage: bool
    var isDraggingLogo: bool
    var isProcessing: bool
    /** The `value` of the two hidden file inputs. */
    var imageInputValue: string
    var logoInputValue: string

    /** The browser's next fresh object URL. */
    var nextUrl: nat
    /**
     * Object URLs this instance created and has not revoked. The browser's
     * registry is shared by the whole page; URLs an earlier, unmounted
     * instance left live are not in this set.
     */
    ghost var live: set<ObjectUrl>
    /** Result URLs passed to the output page, which never revokes them. */
    ghost var handedOff: set<ObjectUrl>

    function Slot(role: Role): Option<FilePreview>
      reads this
    {
      if role == Image then imageFile else logoFile
    }

    function Dragging(role: Role): bool
      reads this
    {
      if role == Image then isDraggingImage else isDraggingLogo
    }

    function InputValue(role: Role): string
      reads this
    {
      if role == Image then imageInputValue else logoInputValue
    }

    ghost function SlotPreviews(): set<ObjectUrl>
      reads this
    {
      PreviewOf(imageFile) + PreviewOf(logoFile)
    }

    /** Every URL the registry has handed out lies below the counter. */
    ghost predicate UrlsIssued()
      reads this
    {
      forall u :: u in live ==> u.id < nextUrl
    }

    /**
     * While the component is mounted, no replaced or removed preview stays
     * live: the live URLs are exactly the previews in the two slots plus the
     * results handed off, and the two slots never share one.
     */
    ghost predicate Valid()
      reads this
    {
      && live == SlotPreviews() + handedOff
      && SlotPreviews() !! handedOff
      && (imageFile.Some? && logoFile.Some? ==> imageFile.value.preview != logoFile.value.preview)
      && UrlsIssued()
    }

    /** The Apply button is enabled (the negation of its `disabled` expression). */
    predicate ApplyEnabled()
      reads this
    {
      imageFile.Some? && logoFile.Some? && !isProcessing
    }

    /** The effect of handleFileSelect on the slots and the live URLs. */
    twostate predicate Intake(file: File, role: Role, new alert: Option<string>)
      reads this
    {
      if !IsImageType(file.mimeType) then
        && alert == Some(NotAnImageAlert)
        && imageFile == old(imageFile) && logoFile == old(logoFile)
        && live == old(live) && nextUrl == old(nextUrl)
      else
        && alert == None
        && Slot(role).Some?
        && Slot(role).value.file == file
        && Slot(role).value.preview !in old(live)
        && Slot(Other(role)) == old(Slot(Other(role)))
        && live == (old(live) - PreviewOf(old(Slot(role)))) + {Slot(role).value.preview}
    }

    /** Everything but the slots and the URL registry is as before. */
    twostate predicate ControlsUnchanged()
      reads this
    {
      && isDraggingImage == old(isDraggingImage) && isDraggingLogo == old(isDraggingLogo)
      && isProcessing == old(isProcessing)
      && imageInputValue == old(imageInputValue) && logoInputValue == old(logoInputValue)
      && handedOff == old(handedOff)
    }

    /** The component's initial state. */
    constructor ()
      ensures Valid()
      ensures imageFile == None && logoFile == None
      ensures !isDraggingImage && !isDraggingLogo && !isProcessing
      ensures imageInputValue == "" && logoInputValue == ""
      ensures live == {} && handedOff == {}
    {
      imageFile, logoFile := None, None;
      isDraggingImage, isDraggingLogo, isProcessing := false, false, false;
      imageInputValue, logoInputValue := "", "";
      nextUrl := 0;
      live, handedOff := {}, {};
    }

    /** URL.createObjectURL: a URL never handed out before, now live. */
    method CreateObjectUrl() returns (url: ObjectUrl)
      requires UrlsIssued()
      modifies this`nextUrl, this`live
      ensures UrlsIssued()
      ensures url !in old(live) && live == old(live) + {url}
    {
      url := ObjectUrl(nextUrl);
      nextUrl := nextUrl + 1;
      live := live + {url};
    }

    /** URL.revokeObjectURL */
    method RevokeObjectUrl(url: ObjectUrl)
      modifies this`live
      ensures live == old(live) - {url}
    {
      live := live - {url};
    }

    /** handleFileSelect: reject a non-image; otherwise replace the slot, revoking the old preview. */
    method HandleFileSelect(file: File, role: Role) returns (alert: Option<string>)
      requires Valid()
      modifies this
      ensures Valid()
      ensures Intake(file, role, alert)
      ensures ControlsUnchanged()
      ensures !IsImageType(file.mimeType) ==> unchanged(this)
    {
      if !IsImageType(file.mimeType) {
        alert := Some(NotAnImageAlert);
        return;
      }
      var preview := CreateObjectUrl();
      var filePreview := FilePreview(file, preview);
      if role == Image {
        if imageFile.Some? {
          RevokeObjectUrl(imageFile.value.preview);
        }
        imageFile := Some(filePreview);
      } else {
        if logoFile.Some? {
          RevokeObjectUrl(logoFile.value.preview);
        }
        logoFile := Some(filePreview);
      }
      alert := None;
    }

    /** handleDragEnter */
    method HandleDragEnter(role: Role)
      requires Valid()
      modifies this`isDraggingImage, this`isDraggingLogo
      ensures Valid()
      ensures Dragging(role)
      ensures Dragging(Other(role)) == old(Dragging(Other(role)))
    {
      if role == Image {
        isDraggingImage := true;
      } else {
        isDraggingLogo := true;
      }
    }

    /** handleDragLeave */
    method HandleDragLeave(role: Role)
      requires Valid()
      modifies this`isDraggingImage, this`isDraggingLogo
      ensures Valid()
      ensures !Dragging(role)
      ensures Dragging(Other(role)) == old(Dragging(Other(role)))
    {
      if role == Image {
        isDraggingImage := false;
      } else {
        isDraggingLogo := false;
      }
    }

    /** handleDrop: clear the role's drag flag and take in the first dropped file only. */
    method HandleDrop(role: Role, files: seq<File>) returns (alert: Option<string>)
      requires Valid()
      modifies this
      ensures Valid()
      ensures !Dragging(role)
      ensures Dragging(Other(role)) == old(Dragging(Other(role)))
      ensures isProcessing == old(isProcessing) && handedOff == old(handedOff)
      ensures imageInputValue == old(imageInputValue) && logoInputValue == old(logoInputValue)
      ensures |files| == 0 ==> alert == None && imageFile == old(imageFile) && logoFile == old(logoFile)
                                && live == old(live) && nextUrl == old(nextUrl)
      ensures |files| > 0 ==> Intake(files[0], role, alert)
    {
      if role == Image {
        isDraggingImage := false;
      } else {
        isDraggingLogo := false;
      }
      if |files| > 0 {
        alert := HandleFileSelect(files[0], role);
      } else {
        alert := None;
      }
    }

    /**
     * handleInputChange. Before `onChange` fires, the browser stores the first
     * picked file in the input's `value` (modelled as its name); the handler
     * then takes that file in. An input with no files changes nothing.
     */
    method HandleInputChange(role: Role, files: Option<seq<File>>) returns (alert: Option<string>)
      requires Valid()
      modifies this
      ensures Valid()
      ensures isDraggingImage == old(isDraggingImage) && isDraggingLogo == old(isDraggingLogo)
      ensures isProcessing == old(isProcessing) && handedOff == old(handedOff)
      ensures InputValue(Other(role)) == old(InputValue(Other(role)))
      ensures files.None? || |files.value| == 0 ==> alert == None && unchanged(this)
      ensures files.Some? && |files.value| > 0 ==>
                && InputValue(role) == files.value[0].name
                && Intake(files.value[0], role, alert)
    {
      if files.Some? && |files.value| > 0 {
        if role == Image {
          imageInputValue := files.value[0].name;
        } else {
          logoInputValue := files.value[0].name;
        }
        alert := HandleFileSelect(files.value[0], role);
      } else {
        alert := None;
      }
    }

    /** handleRemove: empty a filled slot, revoke its preview and clear its input; else nothing. */
    method HandleRemove(role: Role)
      requires Valid()
      modifies this
      ensures Valid()
      ensures old(Slot(role)).None? ==> unchanged(this)
      ensures old(Slot(role)).Some? ==>
                && Slot(role) == None
                && InputValue(role) == ""
                && live == old(live) - {old(Slot(role)).value.preview}
      ensures Slot(Other(role)) == old(Slot(Other(role)))
      ensures InputValue(Other(role)) == old(InputValue(Other(role)))
      ensures isDraggingImage == old(isDraggingImage) && isDraggingLogo == old(isDraggingLogo)
      ensures isProcessing == old(isProcessing) && handedOff == old(handedOff) && nextUrl == old(nextUrl)
    {
      if role == Image && imageFile.Some? {
        RevokeObjectUrl(imageFile.value.preview);
        imageFile := None;
        imageInputValue := "";
      } else if role == Logo && logoFile.Some? {
        RevokeObjectUrl(logoFile.value.preview);
        logoFile := None;
        logoInputValue := "";
      }
    }

    /**
     * handleProcess up to the awaited fetch: refuse unless both slots are
     * filled, else set isProcessing and build the request.
     */
    method BeginProcess() returns (request: Option<Request>, alert: Option<string>)
      requires Valid()
      modifies this`isProcessing
      ensures Valid()
      ensures imageFile.None? || logoFile.None? ==>
                request == None && alert == Some(MissingFileAlert) && isProcessing == old(isProcessing)
      ensures imageFile.Some? && logoFile.Some? ==>
                && request == Some(SubmissionRequest(imageFile.value.file, logoFile.value.file))
                && alert == None && isProcessing
    {
      if imageFile.None? || logoFile.None? {
        request, alert := None, Some(MissingFileAlert);
        return;
      }
      isProcessing := true;
      request := Some(SubmissionRequest(imageFile.value.file, logoFile.value.file));
      alert := None;
    }

    /**
     * handleProcess after the fetch settles, for the main image the request
     * was built from: on an ok response make a URL for the result and hand it
     * off with the derived name; otherwise alert. Either way clear isProcessing.
     */
    method FinishProcess(submitted: File, outcome: FetchOutcome) returns (handoff: Option<Handoff>, alert: Option<string>)
      requires Valid()
      modifies this`isProcessing, this`nextUrl, this`live, this`handedOff
      ensures Valid()
      ensures !isProcessing
      ensures outcome == Response(true) ==>
                && alert == None
                && handoff.Some?
                && handoff.value.originalFileName == WatermarkedName(submitted.name)
                && handoff.value.watermarkedImage !in old(live)
                && live == old(live) + {handoff.value.watermarkedImage}
                && handedOff == old(handedOff) + {handoff.value.watermarkedImage}
      ensures outcome != Response(true) ==>
                && alert == Some(ProcessingFailedAlert)
                && handoff == None
                && live == old(live) && handedOff == old(handedOff)
    {
      if outcome == Response(true) {
        var watermarkedImageUrl := CreateObjectUrl();
        handedOff := handedOff + {watermarkedImageUrl};
        handoff := Some(Handoff(watermarkedImageUrl, OutputNamePrefix + submitted.name));
        alert := None;
      } else {
        handoff, alert := None, Some(ProcessingFailedAlert);
      }
      isProcessing := false;
    }

    /** handleProcess run to completion with no other event in between. */
    method HandleProcess(outcome: FetchOutcome) returns (request: Option<Request>, handoff: Option<Handoff>, alert: Option<string>)
      requires Valid()
      modifies this
      ensures Valid()
      ensures imageFile == old(imageFile) && logoFile == old(logoFile)
      ensures isDraggingImage == old(isDraggingImage) && isDraggingLogo == old(isDraggingLogo)
      ensures imageInputValue == old(imageInputValue) && logoInputValue == old(logoInputValue)
      ensures request.None? <==> imageFile.None? || logoFile.None?
      ensures request.None? ==> unchanged(this) && handoff == None && alert == Some(MissingFileAlert)
      ensures request.Some? ==>
                && request.value == SubmissionRequest(imageFile.value.file, logoFile.value.file)
                && !isProcessing
      ensures handoff.Some? <==> request.Some? && outcome == Response(true)
      ensures handoff.Some? ==> handoff.value.originalFileName == WatermarkedName(imageFile.value.file.name)
      ensures request.Some? && outcome != Response(true) ==> alert == Some(ProcessingFailedAlert)
      ensures request.Some? && outcome == Response(true) ==>
                && alert == None
                && handoff.value.watermarkedImage !in old(live)
                && live == old(live) + {handoff.value.watermarkedImage}
                && handedOff == old(handedOff) + {handoff.value.watermarkedImage}
      ensures outcome != Response(true) ==> live == old(live) && handedOff == old(handedOff)
    {
      handoff := None;
      request, alert := BeginProcess();
      if request.Some? {
        handoff, alert := FinishProcess(imageFile.value.file, outcome);
      }
    }

    /** A click on the Apply button: ignored while it is disabled, else handleProcess starts. */
    method ClickApply() returns (request: Option<Request>, alert: Option<string>)
      requires Valid()
      modifies this`isProcessing
      ensures Valid()
      ensures !old(ApplyEnabled()) ==> request == None && alert == None && unchanged(this)
      ensures old(ApplyEnabled()) ==>
                && request == Some(SubmissionRequest(imageFile.value.file, logoFile.value.file))
                && alert == None
                && isProcessing && !ApplyEnabled()
    {
      if !ApplyEnabled() {
        request, alert := None, None;
        return;
      }
      request, alert := BeginProcess();
    }
  }

  /** While Valid, each slot owns exactly one live non-result URL and nothing else is live. */
  lemma OneLivePreviewPerRole(s: UploadSection)
    requires s.Valid()
    ensures s.live - s.handedOff == s.SlotPreviews()
    ensures |s.live - s.handedOff| <= 2
    ensures forall role :: s.Slot(role).Some? ==> s.Slot(role).value.preview in s.live
  {
  }

  /** Selecting photo.jpg and logo.png, then a successful request. */
  method PhotoAndLogoScenario()
  {
    var section := new UploadSection();
    var photo := File("photo.jpg", "image/jpeg");
    var logo := File("logo.png", "image/png");
    var alert := section.HandleFileSelect(photo, Image);
    assert alert == None;
    var notes := File("notes.txt", "text/plain");
    assert notes.mimeType[0] != ImageMimePrefix[0];
    alert := section.HandleFileSelect(notes, Logo);
    assert alert == Some(NotAnImageAlert) && section.logoFile == None;
    var request, handoff;
    request, handoff, alert := section.HandleProcess(Response(true));
    assert request == None && alert == Some(MissingFileAlert);
    alert := section.HandleFileSelect(logo, Logo);
    request, handoff, alert := section.HandleProcess(Response(true));
    assert request == Some(SubmissionRequest(photo, logo));
    assert handoff.Some? && handoff.value.originalFileName == "watermarked-photo.jpg";
    assert !section.isProcessing && section.imageFile.value.file == photo;
    // Navigating to the output page unmounts the component with both previews still live.
    assert section.imageFile.value.preview in section.live && section.logoFile.value.preview in section.live;
  }
}
