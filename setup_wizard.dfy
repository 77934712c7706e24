/** The three-step shop setup wizard: shop information (step 0), banner
    (step 1) and grid layout (step 2), ending in one `createShop` call. */
module SetupWizard {
  import opened Strings
  import opened Records
  import opened ShopDb

  const LastStep: nat := 2

  /** `isStepValid` for a step and a name: step 0 needs a name that is not
      blank once trimmed, steps 1 and 2 need nothing, other steps fail. */
  function StepValid(step: nat, name: string): (r: bool)
    ensures r <==> step <= LastStep && (step == 0 ==> !AllSpace(name))
  {
    TrimNonEmptyIffNotAllSpace(name);
    match step
    case 0 => |Trim(name)| > 0
    case 1 => true
    case 2 => true
    case _ => false
  }

  /** The guard of `handleComplete`: it tests the name without trimming. */
  predicate CompleteAllowed(name: string)
  {
    name != ""
  }

  /** The completion guard alone lets a blank name through. */
  lemma CompleteGuardDoesNotTrim()
    ensures CompleteAllowed(" ") && !StepValid(0, " ")
  {
    assert AllSpace(" ");
  }

  class Wizard {
    const userId: string
    var step: nat
    var isCreating: bool
    var name: string
    var description: string
    var bannerUrl: string
    var bannerHeight: int
    var gridColumns: GridColumns

    /** The step stays in 0..2. */
    predicate StepInRange()
      reads this
    {
      step <= LastStep
    }

    /** Through the buttons, a step past the first is reached only with a
        name that is not blank; the name can be edited only on step 0. */
    predicate NamedPastFirstStep()
      reads this
    {
      StepInRange() && (step > 0 ==> !AllSpace(name))
    }

    constructor (userId: string)
      ensures this.userId == userId && step == 0 && !isCreating
      ensures name == "" && description == "" && bannerUrl == "" && bannerHeight == 200 && gridColumns == 3
      ensures NamedPastFirstStep()
    {
      this.userId := userId;
      step, isCreating := 0, false;
      name, description, bannerUrl := "", "", "";
      bannerHeight, gridColumns := 200, 3;
    }

    function IsStepValid(): (r: bool)
      reads this
      ensures r <==> step <= LastStep && (step == 0 ==> !AllSpace(name))
    {
      StepValid(step, name)
    }

    /** `handleNext`: one step forward, never past the last. */
    method HandleNext()
      requires StepInRange()
      modifies this`step
      ensures StepInRange()
      ensures step == if old(step) < LastStep then old(step) + 1 else old(step)
    {
      if step < LastStep {
        step := step + 1;
      }
    }

    /** `handlePrevious`: one step back, never before the first. */
    method HandlePrevious()
      requires StepInRange()
      modifies this`step
      ensures StepInRange()
      ensures step == if old(step) > 0 then old(step) - 1 else old(step)
    {
      if step > 0 {
        step := step - 1;
      }
    }

    /** The Next button, disabled while the step is not valid. */
    method ClickNext()
      requires NamedPastFirstStep()
      modifies this`step
      ensures NamedPastFirstStep()
      ensures step == if old(IsStepValid()) && old(step) < LastStep then old(step) + 1 else old(step)
    {
      if IsStepValid() {
        HandleNext();
      }
    }

    /** The Previous button, disabled on step 0. */
    method ClickPrevious()
      requires NamedPastFirstStep()
      modifies this`step
      ensures NamedPastFirstStep()
      ensures step == if old(step) > 0 then old(step) - 1 else 0
    {
      if step != 0 {
        HandlePrevious();
      }
    }

    /** The name input, shown on step 0 only. */
    method SetName(name: string)
      requires step == 0
      modifies this`name
      ensures this.name == name
    {
      this.name := name;
    }

    /** The description input, shown on step 0 only. */
    method SetDescription(description: string)
      requires step == 0
      modifies this`description
      ensures this.description == description
    {
      this.description := description;
    }

    /** The height slider; `height` is `parseInt` of its value. */
    method SetBannerHeight(height: int)
      modifies this`bannerHeight
      ensures bannerHeight == height
    {
      bannerHeight := height;
    }

    /** A column button. */
    method SetGridColumns(cols: GridColumns)
      modifies this`gridColumns
      ensures gridColumns == cols
    {
      gridColumns := cols;
    }

    /** The banner drop zone: the first accepted file is uploaded, and the
        banner URL changes only when the upload returns one. */
    method DropBanner(store: Store, files: seq<string>, now: nat, outage: bool)
      requires store.Valid()
      modifies this`bannerUrl, store`log, store`objects
      ensures files == [] || !store.configured ==>
        bannerUrl == old(bannerUrl) && store.log == old(store.log) && store.objects == old(store.objects)
      ensures files != [] && store.configured ==>
        var path := UploadPath(userId, now, FileExtension(files[0]));
        store.log == old(store.log) + [UploadObject(BannerImages, path)] &&
        if !outage && (BannerImages, path) !in old(store.objects) then
          bannerUrl == store.PublicUrl(BannerImages, path) && store.objects == old(store.objects) + {(BannerImages, path)}
        else
          bannerUrl == old(bannerUrl) && store.objects == old(store.objects)
    {
      if files == [] {
        return;
      }
      var url := store.UploadImage(files[0], BannerImages, userId, now, outage);
      if url.Some? {
        bannerUrl := url.value;
      }
    }

    /** What `handleComplete` sends to `createShop`. */
    function Payload(): (r: NewShop)
      reads this
      ensures r.user_id == userId && r.name == name && r.description == Some(description)
      ensures r.banner_image_url == Some(bannerUrl) && r.banner_height == bannerHeight && r.grid_columns == gridColumns
    {
      NewShop(userId, name, Some(description), Some(bannerUrl), bannerHeight, gridColumns)
    }

    /** `handleComplete`: no call without a name; `isCreating` is cleared
        when the call returns. `newId` and `stamp` are what the backend
        assigns. */
    method HandleComplete(store: Store, newId: string, stamp: string, outage: bool) returns (created: Option<Shop>)
      requires store.Valid()
      modifies this`isCreating, store`log, store`shops
      ensures store.Valid()
      ensures !CompleteAllowed(name) ==>
        created == None && store.log == old(store.log) && store.shops == old(store.shops) && isCreating == old(isCreating)
      ensures CompleteAllowed(name) ==>
        !isCreating && store.log == old(store.log) + (if store.configured then [InsertShop(Payload())] else [])
      ensures CompleteAllowed(name) ==>
        (created.Some? <==> store.configured && !outage && IndexOf(old(store.shops), ShopKey, newId).None?)
      ensures store.shops == old(store.shops) + (if created.Some? then [created.value] else [])
      ensures created.Some? ==>
        created.value == Shop(newId, userId, name, Some(description), Some(bannerUrl), bannerHeight, gridColumns, stamp, stamp)
    {
      if name == "" {
        return None;
      }
      isCreating := true;
      created := store.CreateShop(Payload(), newId, stamp, outage);
      isCreating := false;
    }

    /** The Create Shop button: shown on the last step, disabled while the
        step is not valid or a creation is running. Reached through the
        buttons, the shop it creates has a name that is not blank. */
    method ClickComplete(store: Store, newId: string, stamp: string, outage: bool) returns (created: Option<Shop>)
      requires store.Valid() && NamedPastFirstStep() && step == LastStep
      modifies this`isCreating, store`log, store`shops
      ensures store.Valid()
      ensures old(isCreating) ==> created == None && store.log == old(store.log)
      ensures !old(isCreating) ==> store.log == old(store.log) + (if store.configured then [InsertShop(Payload())] else [])
      ensures !old(isCreating) ==>
        (created.Some? <==> store.configured && !outage && IndexOf(old(store.shops), ShopKey, newId).None?)
      ensures store.shops == old(store.shops) + (if created.Some? then [created.value] else [])
      ensures created.Some? ==>
        created.value == Shop(newId, userId, name, Some(description), Some(bannerUrl), bannerHeight, gridColumns, stamp, stamp) &&
        !AllSpace(created.value.name)
    {
      if isCreating {
        return None;
      }
      created := HandleComplete(store, newId, stamp, outage);
    }
  }
}
