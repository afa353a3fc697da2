/** The Crop document.  The Mongoose schema file is not part of this model; the
    fields below are the ones the crop handlers read and write. */
module CropModel {
  import opened Common
  import opened UserModel

  type CropId = nat

  /** A request-body value: None is a field the body leaves out (`undefined`). */
  type Field = Option<string>

  /** The eight descriptive fields that `createCrop` and `updateCrop` copy from
      the request body. */
  datatype CropInfo = CropInfo(
    cropName: Field,
    scientificName: Field,
    cropFamily: Field,
    cropType: Field,
    cropIntro: Field,
    cropImage: Field,
    cropInfo: Field,
    otherInfo: Field)

  datatype Crop = Crop(id: CropId, info: CropInfo, author: UserId)
}
