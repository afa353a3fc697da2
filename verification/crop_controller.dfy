/** The crop request handlers `getCrops`, `getCropById`, `deleteCrop`,
    `createCrop` and `updateCrop`, over a Crop collection held as a map from id
    to record.

    Each handler wraps its database calls in try/catch and answers 400 with
    the error's message from the catch.  Whether the database throws is an
    oracle: `fault` is the message of the error the database raises on this
    request, or None when its calls succeed. */
module CropController {
  import opened Common
  import opened UserModel
  import opened CropModel
  import opened Http

  const NotFoundMessage: string := "Crop not found"
  const RemovedMessage: string := "Crop removed"
  /** The TypeErrors raised by reading `req.user._id` when `req.user` was
      never set, and when `protect` set it to null. */
  const UndefinedUserMessage: string := "Cannot read properties of undefined (reading '_id')"
  const NullUserMessage: string := "Cannot read properties of null (reading '_id')"
  const CreatedStatus: int := 201
  const NotFoundStatus: int := 404
  const BadRequestStatus: int := 400

  /** A record fetched from the collection: a document whose fields the
      handler may assign one by one before saving it back. */
  class CropDocument {
    const id: CropId
    var cropName: Field
    var scientificName: Field
    var cropFamily: Field
    var cropType: Field
    var cropIntro: Field
    var cropImage: Field
    var cropInfo: Field
    var otherInfo: Field
    var author: UserId

    /** The record the document currently holds. */
    function Value(): Crop
      reads this
    {
      Crop(id, CropInfo(cropName, scientificName, cropFamily, cropType,
                        cropIntro, cropImage, cropInfo, otherInfo), author)
    }

    constructor Load(c: Crop)
      ensures Value() == c
    {
      id := c.id;
      cropName := c.info.cropName;
      scientificName := c.info.scientificName;
      cropFamily := c.info.cropFamily;
      cropType := c.info.cropType;
      cropIntro := c.info.cropIntro;
      cropImage := c.info.cropImage;
      cropInfo := c.info.cropInfo;
      otherInfo := c.info.otherInfo;
      author := c.author;
    }
  }

  /** The record `updateCrop` saves: the eight descriptive fields replaced by
      the body's values (absent ones included), the id and author kept. */
  function Overwrite(c: Crop, body: CropInfo): (r: Crop)
    ensures r.id == c.id && r.author == c.author && r.info == body
  {
    c.(info := body)
  }

  /** A well-formed collection: every record is stored under its own id. */
  ghost predicate KeyedById(crops: map<CropId, Crop>) {
    forall id :: id in crops ==> crops[id].id == id
  }

  /** `getCrops` answers with the set of stored records; under a well-formed
      collection that set holds exactly one record per stored id. */
  lemma AllCropsOnePerId(crops: map<CropId, Crop>, c: Crop)
    requires KeyedById(crops)
    ensures c in crops.Values <==> c.id in crops && crops[c.id] == c
  {
    if c in crops.Values {
      var id :| id in crops && crops[id] == c;
    }
  }

  /** The Crop collection.  `nextId` stands for the database's supply of fresh
      ObjectIds: every stored id is below it. */
  class CropStore {
    var crops: map<CropId, Crop>
    var nextId: CropId

    ghost predicate Valid()
      reads this
    {
      KeyedById(crops) && forall id :: id in crops ==> id < nextId
    }

    constructor ()
      ensures Valid() && crops == map[]
    {
      crops := map[];
      nextId := 0;
    }

    /** The catch block every handler shares: status 400 and the error's
        message. */
    static method Fail(res: HttpResponse, message: string)
      modifies res
      ensures res.status == BadRequestStatus && res.body == Some(MessageJson(message))
    {
      res.Status(BadRequestStatus);
      res.Json(MessageJson(message));
    }

    /** `getCrops`: every stored crop, or 400 with the database's message. */
    method GetCrops(res: HttpResponse, fault: Option<string>)
      modifies res
      ensures fault.None? ==> res.status == old(res.status) && res.body == Some(CropsJson(crops.Values))
      ensures fault.Some? ==> res.status == BadRequestStatus && res.body == Some(MessageJson(fault.value))
    {
      if fault.Some? {
        Fail(res, fault.value);
        return;
      }
      res.Json(CropsJson(crops.Values));
    }

    /** `getCropById`: the crop when its id is stored.  A missing id sets 404
        and throws, and the handler's own catch then resets the status to 400. */
    method GetCropById(id: CropId, res: HttpResponse, fault: Option<string>)
      modifies res
      ensures fault.Some? ==> res.status == BadRequestStatus && res.body == Some(MessageJson(fault.value))
      ensures fault.None? && id in crops ==>
        res.status == old(res.status) && res.body == Some(CropJson(crops[id]))
      ensures fault.None? && id !in crops ==>
        res.status == BadRequestStatus && res.body == Some(MessageJson(NotFoundMessage))
    {
      if fault.Some? {
        Fail(res, fault.value);
        return;
      }
      if id in crops {
        res.Json(CropJson(crops[id]));
      } else {
        res.Status(NotFoundStatus);
        Fail(res, NotFoundMessage);
      }
    }

    /** `deleteCrop`: removes the crop with this id and nothing else. */
    method DeleteCrop(id: CropId, res: HttpResponse, fault: Option<string>)
      requires Valid()
      modifies this, res
      ensures Valid() && nextId == old(nextId)
      ensures fault.Some? ==>
        crops == old(crops) && res.status == BadRequestStatus && res.body == Some(MessageJson(fault.value))
      ensures fault.None? && id in old(crops) ==>
        crops == old(crops) - {id} && res.status == old(res.status) &&
        res.body == Some(MessageJson(RemovedMessage))
      ensures fault.None? && id !in old(crops) ==>
        crops == old(crops) && res.status == BadRequestStatus &&
        res.body == Some(MessageJson(NotFoundMessage))
    {
      if fault.Some? {
        Fail(res, fault.value);
        return;
      }
      if id in crops {
        crops := crops - {id};
        res.Json(MessageJson(RemovedMessage));
      } else {
        res.Status(NotFoundStatus);
        Fail(res, NotFoundMessage);
      }
    }

    /** `createCrop`: inserts one new crop holding the body's eight fields and
        `author = req.user._id`, and answers 201 with it.  An undefined or
        null `req.user` makes reading `_id` throw before anything is saved. */
    method CreateCrop(req: Request, body: CropInfo, res: HttpResponse, fault: Option<string>)
      returns (created: Option<CropId>)
      requires Valid()
      modifies this, res
      ensures Valid()
      ensures req.user.Unset? ==>
        created.None? && crops == old(crops) &&
        res.status == BadRequestStatus && res.body == Some(MessageJson(UndefinedUserMessage))
      ensures req.user.Null? ==>
        created.None? && crops == old(crops) &&
        res.status == BadRequestStatus && res.body == Some(MessageJson(NullUserMessage))
      ensures req.user.Present? && fault.Some? ==>
        created.None? && crops == old(crops) &&
        res.status == BadRequestStatus && res.body == Some(MessageJson(fault.value))
      ensures req.user.Present? && fault.None? ==>
        && created == Some(old(nextId))
        && old(nextId) !in old(crops)
        && crops == old(crops)[old(nextId) := Crop(old(nextId), body, req.user.user.id)]
        && res.status == CreatedStatus
        && res.body == Some(CropJson(Crop(old(nextId), body, req.user.user.id)))
    {
      if req.user.Unset? {
        Fail(res, UndefinedUserMessage);
        return None;
      } else if req.user.Null? {
        Fail(res, NullUserMessage);
        return None;
      }
      var crop := Crop(nextId, body, req.user.user.id);
      if fault.Some? {
        Fail(res, fault.value);
        return None;
      }
      crops := crops[nextId := crop];
      nextId := nextId + 1;
      created := Some(crop.id);
      res.Status(CreatedStatus);
      res.Json(CropJson(crop));
    }

    /** `updateCrop`: fetches the document, assigns the eight body fields to
        it one by one (an absent field becomes undefined), and saves it.  The
        author, the id and every other record stay as they were. */
    method UpdateCrop(id: CropId, body: CropInfo, res: HttpResponse, fault: Option<string>)
      requires Valid()
      modifies this, res
      ensures Valid() && nextId == old(nextId)
      ensures fault.Some? ==>
        crops == old(crops) && res.status == BadRequestStatus && res.body == Some(MessageJson(fault.value))
      ensures fault.None? && id in old(crops) ==>
        && crops == old(crops)[id := Overwrite(old(crops)[id], body)]
        && res.status == old(res.status)
        && res.body == Some(CropJson(Overwrite(old(crops)[id], body)))
      ensures fault.None? && id !in old(crops) ==>
        crops == old(crops) && res.status == BadRequestStatus &&
        res.body == Some(MessageJson(NotFoundMessage))
    {
      if fault.Some? {
        Fail(res, fault.value);
        return;
      }
      if id in crops {
        var doc := new CropDocument.Load(crops[id]);
        doc.cropName := body.cropName;
        doc.scientificName := body.scientificName;
        doc.cropFamily := body.cropFamily;
        doc.cropType := body.cropType;
        doc.cropIntro := body.cropIntro;
        doc.cropImage := body.cropImage;
        doc.cropInfo := body.cropInfo;
        doc.otherInfo := body.otherInfo;
        var updated := doc.Value();
        crops := crops[id := updated];
        res.Json(CropJson(updated));
      } else {
        res.Status(NotFoundStatus);
        Fail(res, NotFoundMessage);
      }
    }
  }

  /** Updating a crop leaves every other crop, and the author of this one,
      as they were; updating twice with the same body is the same as once. */
  lemma OverwriteTouchesOnlyTheEightFields(crops: map<CropId, Crop>, id: CropId, body: CropInfo)
    requires id in crops
    ensures var after := crops[id := Overwrite(crops[id], body)];
      && after.Keys == crops.Keys
      && (forall other :: other in crops && other != id ==> after[other] == crops[other])
      && after[id].author == crops[id].author
      && after[id].info == body
      && after[id := Overwrite(after[id], body)] == after
  {
  }
}
